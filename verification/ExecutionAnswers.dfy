/** Where answers come from: what each status means, which outcome a result
    records, and what a completed, unfinished or foreign reservation answers to
    a later request for the same identity. */
module ExecutionAnswers {
  import opened Words
  import opened Protocol
  import opened Messages
  import opened Execution
  import opened ExecutionSafety
  import opened ExecutionSteps
  import opened ExecutionRuns
  import opened ExecutionBlocked
  import opened ExecutionAdmission

  // ---- statuses ----

  /** Why a request at `q` is answered with `status` on this step. */
  ghost predicate Reason(w: World, s: State, q: Request, l: Label, status: nat) {
    match l
    case Authorize(_, verdict, live, now, _) =>
      || (status == 503 && verdict.NotAvailable?)
      || (status == 401 && (verdict.Denied? || (verdict.Allowed? && (!live || now >= q.auth.expiresAt))))
    case Proceed(_, live, now) =>
      || (status == 401 && (!live || now >= q.auth.expiresAt))
      || (live && now < q.auth.expiresAt && q.at.Reserved?
          && ((status == 409 && (q.at.answer.InProgress? || q.at.answer.Conflict?))
              || (status == 503 && q.at.answer.Unavailable?)))
    case Complete(_, ok, _) =>
      status == 503 &&
      !(ok && Applies(s.journal, WriteResult(Identity(q.auth), SemanticDigest(w, q.auth), q.result)))
    case Sign(_, ok) => status == if ok then 200 else 503
    case _ => false
  }

  ghost predicate Unanswered(q: Request) {
    !q.at.Responded?
  }

  lemma AuthorizeStatus(w: World, s: State, l: Label, status: nat)
    requires l.Authorize? && AtStep(s, l.i, Authorizing)
    ensures DoAuthorize(w, s, l.i, l.verdict, l.live, l.now, l.stamp).requests[l.i].at == Responded(status)
      <==> Reason(w, s, s.requests[l.i], l, status)
  {
    hide FirstResult;
  }

  lemma ProceedStatus(w: World, s: State, l: Label, status: nat)
    requires l.Proceed? && l.i < |s.requests| && s.requests[l.i].at.Reserved?
    ensures DoProceed(w, s, l.i, l.live, l.now).requests[l.i].at == Responded(status)
      <==> Reason(w, s, s.requests[l.i], l, status)
  {
    hide Identity, SemanticDigest, Applies;
    var q := s.requests[l.i];
    if GrantActive(l.live, l.now, q.auth) {
      match q.at.answer
      case Replay(_) => assert DoProceed(w, s, l.i, l.live, l.now).requests[l.i].at == Signing;
      case _ =>
    } else {
      assert DoProceed(w, s, l.i, l.live, l.now).requests[l.i].at == Responded(401);
    }
  }

  lemma CompleteStatus(w: World, s: State, l: Label, status: nat)
    requires l.Complete? && AtStep(s, l.i, Completing)
    ensures DoComplete(w, s, l.i, l.ok, l.pending).requests[l.i].at == Responded(status)
      <==> Reason(w, s, s.requests[l.i], l, status)
  {
    hide Identity, SemanticDigest, Applies, Perform;
  }

  lemma SilentSteps(w: World, s: State, l: Label, i: nat)
    requires Enabled(w, s, l) && i < |s.requests| && Concerns(l, i)
    requires l.Reserve? || l.Enter? || l.HandlerReturn? || l.Crash?
    ensures i < |Apply(w, s, l).requests| && !Apply(w, s, l).requests[i].at.Responded?
  {
    hide Identity, SemanticDigest, ReserveAnswer, Perform, RecordedOutput, Outstanding;
  }

  /** A step answers a request with a status if and only if there is a reason
      for that status. */
  lemma StatusExact(w: World, s: State, l: Label, i: nat, status: nat)
    requires Enabled(w, s, l) && i < |s.requests| && Concerns(l, i)
    ensures i < |Apply(w, s, l).requests|
    ensures Apply(w, s, l).requests[i].at == Responded(status) <==> Reason(w, s, s.requests[i], l, status)
  {
    hide DoAuthorize, DoProceed, DoComplete, DoReserve, DoEnter, DoReturn, Identity, SemanticDigest, Applies, Canonical,
         Signed;
    match l
    case Authorize(_, _, _, _, _) => AuthorizeStatus(w, s, l, status); Kept1(w, s, l, i);
    case Proceed(_, _, _) => ProceedStatus(w, s, l, status); Kept1(w, s, l, i);
    case Complete(_, _, _) => CompleteStatus(w, s, l, status); Kept1(w, s, l, i);
    case Sign(_, _) =>
    case _ => SilentSteps(w, s, l, i);
  }

  lemma Kept1(w: World, s: State, l: Label, i: nat)
    requires Enabled(w, s, l) && i < |s.requests| && (l.Authorize? || l.Proceed? || l.Complete?)
    ensures |Apply(w, s, l).requests| == |s.requests|
  {
    hide Identity, SemanticDigest, Applies, Perform, FirstResult;
  }

  /** In every run, every status has a reason: the step that gave it. */
  lemma {:induction false} StatusExplained(w: World, run: seq<Label>, i: nat) returns (k: nat)
    requires After(w, run).Some? && i < |After(w, run).value.requests|
    requires After(w, run).value.requests[i].at.Responded?
    ensures k < |run| && After(w, run[..k]).Some? && i < |After(w, run[..k]).value.requests|
    ensures Concerns(run[k], i) && Unanswered(After(w, run[..k]).value.requests[i])
    ensures Reason(w, After(w, run[..k]).value, After(w, run[..k]).value.requests[i], run[k],
                   After(w, run).value.requests[i].at.status)
    decreases |run|
  {
    hide After, Enabled, Apply, Reason, Concerns;
    k := 0;
    if run == [] {
      NoRequests(w);
    } else {
      var before, l := run[..|run| - 1], run[|run| - 1];
      AfterBefore(w, run);
      var s := After(w, before).value;
      if i >= |s.requests| {
        Arrival(w, s, l, i);
      } else if s.requests[i].at.Responded? {
        k := StatusExplained(w, before, i);
        RespondedStep(w, s, l, i);
        assert run[..k] == before[..k];
      } else {
        k := |run| - 1;
        if Concerns(l, i) {
          StatusExact(w, s, l, i, After(w, run).value.requests[i].at.status);
        } else {
          Unconcerned(w, s, l, i);
        }
      }
    }
  }

  // ---- outcomes ----

  /** The outcome a step puts into a result: the handler's canonical output if
      it returned one in time, valid and within the limits both before and after
      compaction; otherwise the unknown outcome. The time is the step's. */
  ghost predicate OutcomeOf(w: World, r: Result, l: Label) {
    match l
    case Enter(_, live, now) => !live && r.errorCode == "outcome_unknown" && r.output == [] && r.completedAt == now
    case HandlerReturn(_, output, live, now) =>
      && r.completedAt == now
      && (r.errorCode == "" <==>
           && live && output.Some? && w.compact(output.value).Some?
           && |output.value| <= 0x40_0000 && |w.compact(output.value).value| <= 0x40_0000)
      && (if r.errorCode == "" then Some(r.output) == w.compact(output.value)
          else r.errorCode == "outcome_unknown" && r.output == [])
    case _ => false
  }

  lemma ReturnOutcome(w: World, q: Request, l: Label)
    requires l.HandlerReturn? && q.result.errorCode == "" && q.result.output == []
    ensures OutcomeOf(w, Build(w, q, if l.live then l.output else None, l.now).result, l)
  {
  }

  lemma EnterOutcome(w: World, q: Request, l: Label)
    requires l.Enter? && !l.live && q.result.output == []
    ensures OutcomeOf(w, Build(w, q, None, l.now).result, l)
  {
  }

  /** The step that builds a result. */
  lemma Building(w: World, s: State, l: Label, i: nat)
    requires Inv(w, s) && Enabled(w, s, l) && i < |s.requests| && !s.requests[i].built
    requires i < |Apply(w, s, l).requests| && Apply(w, s, l).requests[i].built
    ensures Concerns(l, i) && OutcomeOf(w, Apply(w, s, l).requests[i].result, l)
  {
    hide RowOk, LateOk, SignatureOk, CallOk, EntryOk, Identity, SemanticDigest, OutcomeOf, Build, DoReserve, DoComplete,
         DoAuthorize, DoSign, DoProceed, Admitted, Genuine, Bound, Response, Outstanding, Replayable, Answerable;
    assert RequestOk(w, s, i);
    if !Concerns(l, i) {
      Unconcerned(w, s, l, i);
    } else if l.HandlerReturn? {
      ReturnOutcome(w, s.requests[i], l);
    } else if l.Enter? {
      EnterBuilds(w, s, l);
      EnterOutcome(w, s.requests[i], l);
    } else {
      NotBuilding(w, s, l, i);
    }
  }

  lemma EnterBuilds(w: World, s: State, l: Label)
    requires l.Enter? && AtStep(s, l.i, Entering) && !s.requests[l.i].built
    ensures DoEnter(w, s, l.i, l.live, l.now).requests[l.i].built ==> !l.live
    ensures !l.live ==> DoEnter(w, s, l.i, l.live, l.now).requests[l.i] == Build(w, s.requests[l.i], None, l.now)
  {
    hide Build;
  }

  lemma NotBuilding(w: World, s: State, l: Label, i: nat)
    requires Enabled(w, s, l) && Concerns(l, i) && i < |s.requests| && !l.HandlerReturn? && !l.Enter?
    ensures i < |Apply(w, s, l).requests| && Apply(w, s, l).requests[i].built == s.requests[i].built
  {
    hide DoAuthorize, DoReserve, DoProceed, DoComplete, DoSign, DoEnter, DoReturn, Outstanding;
    match l
    case Authorize(_, _, _, _, _) => SameBuiltAuthorize(w, s, l);
    case Reserve(_, _, _) => SameBuiltReserve(w, s, l);
    case Proceed(_, _, _) => SameBuiltProceed(w, s, l);
    case Complete(_, _, _) => SameBuiltComplete(w, s, l);
    case Sign(_, _) => SameBuiltSign(w, s, l);
    case _ =>
  }

  lemma SameBuiltAuthorize(w: World, s: State, l: Label)
    requires l.Authorize? && AtStep(s, l.i, Authorizing)
    ensures var s' := DoAuthorize(w, s, l.i, l.verdict, l.live, l.now, l.stamp);
      l.i < |s'.requests| && s'.requests[l.i].built == s.requests[l.i].built
  {
    hide Identity, SemanticDigest, FirstResult, Canonical, Signed, Perform, Applies, ReserveAnswer;
  }

  lemma SameBuiltReserve(w: World, s: State, l: Label)
    requires l.Reserve? && AtStep(s, l.i, Reserving)
    ensures var s' := DoReserve(w, s, l.i, l.ok, l.pending);
      l.i < |s'.requests| && s'.requests[l.i].built == s.requests[l.i].built
  {
    hide Identity, SemanticDigest, FirstResult, Canonical, Signed, Perform, Applies, ReserveAnswer;
  }

  lemma SameBuiltProceed(w: World, s: State, l: Label)
    requires l.Proceed? && l.i < |s.requests| && s.requests[l.i].at.Reserved?
    ensures var s' := DoProceed(w, s, l.i, l.live, l.now);
      l.i < |s'.requests| && s'.requests[l.i].built == s.requests[l.i].built
  {
    hide Identity, SemanticDigest, FirstResult, Canonical, Signed, Perform, Applies, ReserveAnswer;
  }

  lemma SameBuiltComplete(w: World, s: State, l: Label)
    requires l.Complete? && AtStep(s, l.i, Completing)
    ensures var s' := DoComplete(w, s, l.i, l.ok, l.pending);
      l.i < |s'.requests| && s'.requests[l.i].built == s.requests[l.i].built
  {
    hide Identity, SemanticDigest, FirstResult, Canonical, Signed, Perform, Applies, ReserveAnswer;
  }

  lemma SameBuiltSign(w: World, s: State, l: Label)
    requires l.Sign? && AtStep(s, l.i, Signing)
    ensures var s' := DoSign(w, s, l.i, l.ok);
      l.i < |s'.requests| && s'.requests[l.i].built == s.requests[l.i].built
  {
    hide Identity, SemanticDigest, FirstResult, Canonical, Signed, Perform, Applies, ReserveAnswer;
  }

  /** In every run, a built result records the outcome of the step that built
      it, and keeps it. */
  lemma {:induction false} OutcomeExplained(w: World, run: seq<Label>, i: nat) returns (k: nat)
    requires Lawful(w) && After(w, run).Some? && i < |After(w, run).value.requests|
    requires After(w, run).value.requests[i].built
    ensures k < |run| && Concerns(run[k], i) && OutcomeOf(w, After(w, run).value.requests[i].result, run[k])
    decreases |run|
  {
    hide Lawful, After, Enabled, Apply, Inv, OutcomeOf, Concerns;
    k := 0;
    if run == [] {
      NoRequests(w);
    } else {
      var before, l := run[..|run| - 1], run[|run| - 1];
      AfterBefore(w, run);
      EveryRun(w, before);
      var s := After(w, before).value;
      EveryStep(w, s, l);
      if i >= |s.requests| {
        Arrival(w, s, l, i);
      } else if s.requests[i].built {
        k := OutcomeExplained(w, before, i);
        assert RequestKept(s.requests[i], After(w, run).value.requests[i]);
      } else {
        k := |run| - 1;
        Building(w, s, l, i);
      }
    }
  }

  // ---- what the journal answered ----

  /** The answer a request holds is the journal's at its own reserve step. */
  lemma {:induction false} AnswerExplained(w: World, run: seq<Label>, i: nat) returns (k: nat)
    requires After(w, run).Some? && i < |After(w, run).value.requests| && After(w, run).value.requests[i].at.Reserved?
    ensures k < |run| && After(w, run[..k]).Some? && run[k].Reserve? && run[k].i == i
    ensures var q, j := After(w, run).value.requests[i], After(w, run[..k]).value.journal;
      q.at.answer == if run[k].ok then ReserveAnswer(j, Identity(q.auth), SemanticDigest(w, q.auth)) else Unavailable
    decreases |run|
  {
    hide After, Enabled, Apply, Concerns, Identity, SemanticDigest, ReserveAnswer;
    k := 0;
    if run == [] {
      NoRequests(w);
    } else {
      var before, l := run[..|run| - 1], run[|run| - 1];
      AfterBefore(w, run);
      var s := After(w, before).value;
      if i >= |s.requests| {
        Arrival(w, s, l, i);
      } else if Concerns(l, i) {
        k := |run| - 1;
        Reserving1(w, s, l, i);
      } else {
        Unconcerned(w, s, l, i);
        k := AnswerExplained(w, before, i);
        assert run[..k] == before[..k];
      }
    }
  }

  lemma Reserving1(w: World, s: State, l: Label, i: nat)
    requires Enabled(w, s, l) && Concerns(l, i) && i < |s.requests|
    requires i < |Apply(w, s, l).requests| && Apply(w, s, l).requests[i].at.Reserved?
    ensures l.Reserve? && l.i == i && Apply(w, s, l).requests[i].auth == s.requests[i].auth
    ensures var q := Apply(w, s, l).requests[i];
      q.at.answer == if l.ok then ReserveAnswer(s.journal, Identity(q.auth), SemanticDigest(w, q.auth)) else Unavailable
  {
    hide DoAuthorize, DoReserve, DoProceed, DoComplete, DoSign, DoEnter, DoReturn, Identity, SemanticDigest,
         ReserveAnswer, Outstanding;
    if l.Reserve? {
      ReserveHolds(w, s, l);
    } else {
      NotReserving(w, s, l, i);
    }
  }

  lemma ReserveHolds(w: World, s: State, l: Label)
    requires l.Reserve? && AtStep(s, l.i, Reserving)
    ensures var s' := DoReserve(w, s, l.i, l.ok, l.pending);
      && l.i < |s'.requests| && s'.requests[l.i].auth == s.requests[l.i].auth
      && var a := s.requests[l.i].auth;
         s'.requests[l.i].at ==
           Reserved(if l.ok then ReserveAnswer(s.journal, Identity(a), SemanticDigest(w, a)) else Unavailable)
  {
    hide Identity, SemanticDigest, Perform, ReserveAnswer;
  }

  lemma NotReserving(w: World, s: State, l: Label, i: nat)
    requires Enabled(w, s, l) && Concerns(l, i) && i < |s.requests| && !l.Reserve?
    ensures i < |Apply(w, s, l).requests| && !Apply(w, s, l).requests[i].at.Reserved?
  {
    hide DoAuthorize, DoProceed, DoComplete, DoSign, DoEnter, DoReturn, Outstanding;
    match l
    case Authorize(_, _, _, _, _) => NotReservedAuthorize(w, s, l);
    case Proceed(_, _, _) => NotReservedProceed(w, s, l);
    case Enter(_, _, _) => NotReservedEnter(w, s, l);
    case HandlerReturn(_, _, _, _) => NotReservedHandlerReturn(w, s, l);
    case Complete(_, _, _) => NotReservedComplete(w, s, l);
    case Sign(_, _) => NotReservedSign(w, s, l);
    case Crash(_, _) =>
  }

  lemma NotReservedAuthorize(w: World, s: State, l: Label)
    requires l.Authorize? && AtStep(s, l.i, Authorizing)
    ensures var s' := DoAuthorize(w, s, l.i, l.verdict, l.live, l.now, l.stamp);
      l.i < |s'.requests| && !s'.requests[l.i].at.Reserved?
  {
    hide Identity, SemanticDigest, FirstResult, Canonical, Signed, Perform, Applies, RecordedOutput;
  }

  lemma NotReservedProceed(w: World, s: State, l: Label)
    requires l.Proceed? && l.i < |s.requests| && s.requests[l.i].at.Reserved?
    ensures var s' := DoProceed(w, s, l.i, l.live, l.now);
      l.i < |s'.requests| && !s'.requests[l.i].at.Reserved?
  {
    hide Identity, SemanticDigest, FirstResult, Canonical, Signed, Perform, Applies, RecordedOutput;
  }

  lemma NotReservedEnter(w: World, s: State, l: Label)
    requires l.Enter? && AtStep(s, l.i, Entering)
    ensures var s' := DoEnter(w, s, l.i, l.live, l.now);
      l.i < |s'.requests| && !s'.requests[l.i].at.Reserved?
  {
    hide Identity, SemanticDigest, FirstResult, Canonical, Signed, Perform, Applies, RecordedOutput;
  }

  lemma NotReservedHandlerReturn(w: World, s: State, l: Label)
    requires l.HandlerReturn? && CanReturn(s, l.i)
    ensures var s' := DoReturn(w, s, l.i, l.output, l.live, l.now);
      l.i < |s'.requests| && !s'.requests[l.i].at.Reserved?
  {
    hide Identity, SemanticDigest, FirstResult, Canonical, Signed, Perform, Applies, RecordedOutput;
  }

  lemma NotReservedComplete(w: World, s: State, l: Label)
    requires l.Complete? && AtStep(s, l.i, Completing)
    ensures var s' := DoComplete(w, s, l.i, l.ok, l.pending);
      l.i < |s'.requests| && !s'.requests[l.i].at.Reserved?
  {
    hide Identity, SemanticDigest, FirstResult, Canonical, Signed, Perform, Applies, RecordedOutput;
  }

  lemma NotReservedSign(w: World, s: State, l: Label)
    requires l.Sign? && AtStep(s, l.i, Signing)
    ensures var s' := DoSign(w, s, l.i, l.ok);
      l.i < |s'.requests| && !s'.requests[l.i].at.Reserved?
  {
    hide Identity, SemanticDigest, FirstResult, Canonical, Signed, Perform, Applies, RecordedOutput;
  }

  // ---- what VerifyResult accepts ----

  /** The results that verify against a grant are those the runtime could send
      for it: the first result for that grant with the grant's nonce, apart from
      outcome and time. */
  lemma VerifyResultExact(w: World, r: Result, a: Authorization, raw: Bytes)
    ensures VerifyResult(w, r, a, raw) <==>
      && |r.output| <= 0x40_0000
      && r == Result(a.id, a.bindingID, a.manifestDigest, w.digest(raw), a.kind, a.nonce, r.errorCode, r.output,
                     1, a.bindingRevision, r.completedAt)
  {
  }
}
