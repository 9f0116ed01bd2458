/** Each step of the execution protocol keeps the invariant, and no step undoes
    anything already decided. */
module ExecutionSteps {
  import opened Words
  import opened Protocol
  import opened Messages
  import opened Execution
  import opened ExecutionSafety

  /** A step that only moves request `i`. */
  lemma MoveRequest(w: World, s: State, i: nat, q: Request, more: set<Statement>)
    requires Inv(w, s) && i < |s.requests| && RequestKept(s.requests[i], q)
    requires var s' := Put(s, i, q).(late := s.late + more);
             RequestOk(w, s', i) && forall st :: st in more ==> LateOk(w, s', st)
    ensures var s' := Put(s, i, q).(late := s.late + more); StepOk(w, s, s', i) && Inv(w, s')
  {
    var s' := Put(s, i, q).(late := s.late + more);
    hide RequestOk, SignatureOk, RowOk, LateOk, EntryOk, CallOk, Inv;
    assert StepOk(w, s, s', i);
    InvFromStep(w, s, s', i);
  }

  lemma StepAuthorize(w: World, s: State, i: nat, verdict: Verdict, live: bool, now: int64, stamp: int64)
    requires Inv(w, s) && AtStep(s, i, Authorizing)
    ensures var s' := DoAuthorize(w, s, i, verdict, live, now, stamp); Kept(s, s') && Inv(w, s')
  {
    hide Lawful, Identity, SemanticDigest, Canonical, InputBound, Accepted, WellConfigured;
    var s' := DoAuthorize(w, s, i, verdict, live, now, stamp);
    assert RequestOk(w, s, i);
    assert s' == Put(s, i, s'.requests[i]).(late := s.late + {});
    MoveRequest(w, s, i, s'.requests[i], {});
  }

  lemma StepReserveFailed(w: World, s: State, i: nat, pending: bool)
    requires Inv(w, s) && AtStep(s, i, Reserving)
    ensures var s' := DoReserve(w, s, i, false, pending); Kept(s, s') && Inv(w, s')
  {
    hide Lawful, Identity, SemanticDigest, Canonical, InputBound, Accepted, WellConfigured, Bound;
    var s' := DoReserve(w, s, i, false, pending);
    var more := if pending then Outstanding(w, s.requests[i]) else {};
    assert RequestOk(w, s, i);
    assert s' == Put(s, i, s'.requests[i]).(late := s.late + more);
    MoveRequest(w, s, i, s'.requests[i], more);
  }

  lemma StepReserveFresh(w: World, s: State, i: nat)
    requires Inv(w, s) && AtStep(s, i, Reserving) && Identity(s.requests[i].auth) !in s.journal
    ensures var s' := DoReserve(w, s, i, true, false); Kept(s, s') && Inv(w, s')
  {
    hide Lawful, Identity, SemanticDigest, Canonical, InputBound, Accepted, WellConfigured, Bound;
    var q := s.requests[i];
    var x := Identity(q.auth);
    var s' := DoReserve(w, s, i, true, false);
    assert RequestOk(w, s, i);
    assert x in s.owner ==> RequestOk(w, s, s.owner[x]);
    assert s'.owner == s.owner[x := i];
    assert RequestOk(w, s', i);
    assert Kept(s, s');
    assert StepOk(w, s, s', i) by {
      hide RequestOk, SignatureOk, LateOk, EntryOk, CallOk, Inv;
    }
    InvFromStep(w, s, s', i);
  }

  lemma StepReserveTaken(w: World, s: State, i: nat)
    requires Inv(w, s) && AtStep(s, i, Reserving) && Identity(s.requests[i].auth) in s.journal
    ensures var s' := DoReserve(w, s, i, true, false); Kept(s, s') && Inv(w, s')
  {
    hide Lawful, Identity, SemanticDigest, Canonical, InputBound, Accepted, WellConfigured, Bound;
    var q := s.requests[i];
    var x := Identity(q.auth);
    var s' := DoReserve(w, s, i, true, false);
    assert RequestOk(w, s, i) && RowOk(w, s, x);
    if HasResult(s, x) {
      assert RequestOk(w, s, s.owner[x]);
    }
    assert s' == Put(s, i, s'.requests[i]).(late := s.late + {});
    MoveRequest(w, s, i, s'.requests[i], {});
  }

  lemma StepReserve(w: World, s: State, i: nat, ok: bool, pending: bool)
    requires Inv(w, s) && AtStep(s, i, Reserving)
    ensures var s' := DoReserve(w, s, i, ok, pending); Kept(s, s') && Inv(w, s')
  {
    hide Inv, Kept, Identity, SemanticDigest;
    if !ok {
      StepReserveFailed(w, s, i, pending);
    } else {
      assert DoReserve(w, s, i, true, pending) == DoReserve(w, s, i, true, false);
      if Identity(s.requests[i].auth) in s.journal {
        StepReserveTaken(w, s, i);
      } else {
        StepReserveFresh(w, s, i);
      }
    }
  }

  lemma StepProceed(w: World, s: State, i: nat, live: bool, now: int64)
    requires Inv(w, s) && i < |s.requests| && s.requests[i].at.Reserved?
    ensures var s' := DoProceed(w, s, i, live, now); Kept(s, s') && Inv(w, s')
  {
    hide Lawful, Identity, SemanticDigest, Canonical, InputBound, Accepted, WellConfigured, Bound;
    var s' := DoProceed(w, s, i, live, now);
    assert RequestOk(w, s, i);
    assert s' == Put(s, i, s'.requests[i]).(late := s.late + {});
    var q := s.requests[i];
    if q.at.answer.Replay? {
      assert Replayable(w, s, q, q.at.answer.result);
    }
    MoveRequest(w, s, i, s'.requests[i], {});
  }

  lemma CanonicalOutput(w: World, output: Option<Bytes>)
    requires Lawful(w) && RecordedOutput(w, output).Some?
    ensures var o := RecordedOutput(w, output).value;
            output.Some? && w.compact(output.value) == Some(o) && |o| <= MAX_INPUT && Clean(w, o) && o != []
  {
  }

  lemma StepSkip(w: World, s: State, i: nat, now: int64)
    requires Lawful(w) && Inv(w, s) && AtStep(s, i, Entering)
    ensures var s' := DoEnter(w, s, i, false, now); Kept(s, s') && Inv(w, s')
  {
    hide Lawful, Identity, SemanticDigest, InputBound, Accepted, WellConfigured, Bound;
    var s' := DoEnter(w, s, i, false, now);
    assert RequestOk(w, s, i);
    assert s' == Put(s, i, s'.requests[i]).(late := s.late + {});
    assert Bound(w, s'.requests[i].result, s.requests[i].auth, s.requests[i].raw) by {
      Rebound(w, s.requests[i], now);
    }
    MoveRequest(w, s, i, s'.requests[i], {});
  }

  /** Filling in an outcome does not touch what binds the result to its grant. */
  lemma Rebound(w: World, q: Request, now: int64)
    requires Bound(w, q.result, q.auth, q.raw)
    ensures forall o :: Bound(w, Build(w, q, o, now).result, q.auth, q.raw)
  {
  }

  lemma StepEnter(w: World, s: State, i: nat, now: int64)
    requires Inv(w, s) && AtStep(s, i, Entering)
    ensures var s' := DoEnter(w, s, i, true, now); Kept(s, s') && Inv(w, s')
  {
    hide Lawful, Identity, SemanticDigest, Canonical, InputBound, Accepted, WellConfigured, Bound;
    var s' := DoEnter(w, s, i, true, now);
    assert RequestOk(w, s, i);
    assert Kept(s, s');
    assert RequestOk(w, s', i);
    assert EntryOk(s', |s.entries|);
    assert StepOk(w, s, s', i) by {
      hide RequestOk, SignatureOk, LateOk, RowOk, EntryOk, CallOk, Inv;
    }
    InvFromStep(w, s, s', i);
  }

  lemma BuiltIsGenuine(w: World, s: State, q: Request, output: Option<Bytes>, live: bool, now: int64)
    requires Lawful(w) && Blank(w, q) && q.entered.Some? && q.entered.value < |s.entries|
    requires s.entries[q.entered.value].returned == output
    ensures Genuine(w, s, Build(w, q, if live then output else None, now))
  {
    hide RecordedOutput, Bound, Lawful, Canonical;
    var given := if live then output else None;
    Rebound(w, q, now);
    if RecordedOutput(w, given).Some? {
      CanonicalOutput(w, given);
    }
  }

  predicate CanReturn(s: State, i: nat) {
    AtStep(s, i, Running) && s.requests[i].entered.Some? && s.requests[i].entered.value < |s.entries|
  }

  lemma ReturnKept(w: World, s: State, i: nat, output: Option<Bytes>, live: bool, now: int64)
    requires CanReturn(s, i) && RequestOk(w, s, i)
    ensures Kept(s, DoReturn(w, s, i, output, live, now))
  {
    hide Lawful, Identity, SemanticDigest, InputBound, Accepted, WellConfigured, Bound, RecordedOutput, Genuine,
         Canonical;
  }

  lemma SameAdmitted(w: World, q: Request, q': Request)
    requires Admitted(w, q) && q'.raw == q.raw && q'.auth == q.auth && q'.cfg == q.cfg
    ensures Admitted(w, q')
  {
    hide Accepted, WellConfigured, InputBound;
  }

  lemma ReturnShape(w: World, s: State, i: nat, output: Option<Bytes>, live: bool, now: int64)
    requires CanReturn(s, i)
    ensures var s' := DoReturn(w, s, i, output, live, now);
      var q, q' := s.requests[i], s'.requests[i];
      && s'.owner == s.owner && s'.journal == s.journal && |s'.entries| == |s.entries| && |s'.requests| == |s.requests|
      && q' == Build(w, q, if live then output else None, now) && q'.at == Completing && q'.built
      && q'.cfg == q.cfg && q'.raw == q.raw && q'.auth == q.auth && q'.owns == q.owns && q'.entered == q.entered
      && s'.entries[q.entered.value].request == s.entries[q.entered.value].request
      && s'.entries[q.entered.value].returned == output
  {
    hide RecordedOutput;
  }

  lemma ReturnOk(w: World, s: State, i: nat, output: Option<Bytes>, live: bool, now: int64)
    requires Lawful(w) && CanReturn(s, i) && RequestOk(w, s, i)
    ensures RequestOk(w, DoReturn(w, s, i, output, live, now), i)
  {
    hide Lawful, Identity, SemanticDigest, Admitted, Blank, Genuine, Response, Replayable, Answerable, DoReturn, Build;
    var s' := DoReturn(w, s, i, output, live, now);
    ReturnShape(w, s, i, output, live, now);
    BuiltIsGenuine(w, s', s.requests[i], output, live, now);
    SameAdmitted(w, s.requests[i], s'.requests[i]);
  }

  lemma StepReturn(w: World, s: State, i: nat, output: Option<Bytes>, live: bool, now: int64)
    requires Lawful(w) && Inv(w, s) && Enabled(w, s, HandlerReturn(i, output, live, now))
    ensures var s' := DoReturn(w, s, i, output, live, now); Kept(s, s') && Inv(w, s')
  {
    hide Lawful, Identity, SemanticDigest, InputBound, Accepted, WellConfigured, Bound, RecordedOutput, Genuine,
         Canonical;
    var q := s.requests[i];
    var s' := DoReturn(w, s, i, output, live, now);
    assert RequestOk(w, s, i);
    ReturnKept(w, s, i, output, live, now);
    ReturnOk(w, s, i, output, live, now);
    assert StepOk(w, s, s', i) by {
      hide RequestOk, SignatureOk, LateOk, RowOk, EntryOk, CallOk, Kept;
    }
    InvFromStep(w, s, s', i);
  }

  lemma CompleteOk(w: World, s: State, i: nat)
    requires AtStep(s, i, Completing) && RequestOk(w, s, i)
    requires var q := s.requests[i];
      Applies(s.journal, WriteResult(Identity(q.auth), SemanticDigest(w, q.auth), q.result))
    ensures var s' := DoComplete(w, s, i, true, false);
      Kept(s, s') && RequestOk(w, s', i) && RowOk(w, s', Identity(s.requests[i].auth))
  {
    hide Lawful, Identity, SemanticDigest, Admitted, Bound, Response, Blank;
    var s' := DoComplete(w, s, i, true, false);
    SameAdmitted(w, s.requests[i], s'.requests[i]);
    assert Genuine(w, s', s'.requests[i]);
  }

  lemma StepComplete(w: World, s: State, i: nat, ok: bool, pending: bool)
    requires Inv(w, s) && AtStep(s, i, Completing)
    ensures var s' := DoComplete(w, s, i, ok, pending); Kept(s, s') && Inv(w, s')
  {
    hide Lawful, Identity, SemanticDigest, Admitted, Bound, Response;
    var q := s.requests[i];
    var x := Identity(q.auth);
    var st := WriteResult(x, SemanticDigest(w, q.auth), q.result);
    var s' := DoComplete(w, s, i, ok, pending);
    assert RequestOk(w, s, i);
    assert HasResult(s, x) && OwnerOf(s, x) == q;
    if ok && Applies(s.journal, st) {
      CompleteOk(w, s, i);
      assert StepOk(w, s, s', i) by {
        hide RequestOk, SignatureOk, LateOk, RowOk, EntryOk, CallOk, Inv, Kept;
      }
      InvFromStep(w, s, s', i);
    } else {
      SameAdmitted(w, q, s'.requests[i]);
      var more := if !ok && pending then {st} else {};
      assert s' == Put(s, i, s'.requests[i]).(late := s.late + more);
      MoveRequest(w, s, i, s'.requests[i], more);
    }
  }

  // ---- results are proper ----

  lemma BoundIsReadable(w: World, r: Result, a: Authorization, raw: Bytes)
    requires Lawful(w) && Bound(w, r, a, raw) && Readable(a) && Printable(r.nonce)
    requires r.errorCode == "" || r.errorCode == "outcome_unknown"
    ensures ReadableResult(r)
  {
    hide Lawful, Printable, IsDigest;
    HashIsHex(w, raw);
    DigestLength(w.digest(raw));
    WordsPrintable();
  }

  lemma RequestIsReadable(w: World, s: State, i: nat)
    requires Lawful(w) && Inv(w, s) && i < |s.requests|
    ensures Readable(s.requests[i].auth)
  {
    hide Lawful, Readable, WellConfigured, Accepted, AtOk, Genuine, RowOk, LateOk, SignatureOk, CallOk, EntryOk,
         Identity, SemanticDigest, Response;
    assert RequestOk(w, s, i);
    AcceptedIsReadable(w, s.requests[i].cfg, s.requests[i].auth);
  }

  lemma BuiltIsProper(w: World, s: State, i: nat)
    requires Lawful(w) && Inv(w, s) && i < |s.requests| && s.requests[i].built
    ensures Proper(w, s.requests[i].result)
  {
    hide Lawful, Readable, Printable, Admitted, AtOk, RowOk, LateOk, SignatureOk, CallOk, EntryOk, Identity,
         SemanticDigest, Bound, Response, ReadableResult, Clean;
    var q := s.requests[i];
    assert RequestOk(w, s, i);
    RequestIsReadable(w, s, i);
    WordsPrintable();
    BoundIsReadable(w, q.result, q.auth, q.raw);
  }

  lemma Restamped(w: World, r: Result, raw: Bytes)
    requires Lawful(w) && Proper(w, r)
    ensures Proper(w, r.(authorizationDigest := w.digest(raw)))
  {
    hide Lawful, Printable, IsDigest;
    HashIsHex(w, raw);
    DigestLength(w.digest(raw));
  }

  lemma ChallengeIsProper(w: World, s: State, i: nat)
    requires Lawful(w) && Inv(w, s) && i < |s.requests| && s.requests[i].auth.kind == "challenge"
    requires s.requests[i].at.Signing? || s.requests[i].at == Responded(200)
    ensures Proper(w, s.requests[i].result)
  {
    hide Lawful, RowOk, LateOk, SignatureOk, CallOk, EntryOk, Identity, SemanticDigest, Bound, Response, Admitted,
         Genuine, ReadableResult, Printable;
    var q := s.requests[i];
    assert RequestOk(w, s, i);
    RequestIsReadable(w, s, i);
    BoundIsReadable(w, q.result, q.auth, q.raw);
  }

  /** The result being signed or already answered is proper. */
  lemma AnswerIsProper(w: World, s: State, i: nat)
    requires Lawful(w) && Inv(w, s) && i < |s.requests|
    requires s.requests[i].at.Signing? || s.requests[i].at == Responded(200)
    ensures Proper(w, s.requests[i].result)
  {
    hide Lawful, Identity, SemanticDigest, InputBound, Bound, Accepted, WellConfigured, Response, Proper, Genuine,
         RowOk, LateOk, SignatureOk, CallOk, EntryOk;
    var q := s.requests[i];
    assert RequestOk(w, s, i);
    if q.auth.kind == "challenge" {
      ChallengeIsProper(w, s, i);
    } else if q.built {
      BuiltIsProper(w, s, i);
    } else {
      var o := s.owner[Identity(q.auth)];
      BuiltIsProper(w, s, o);
      Restamped(w, s.requests[o].result, q.raw);
    }
  }

  lemma ProperIsCanonical(w: World, r: Result)
    requires Proper(w, r)
    ensures Canonical(w, r.output) == r.output
  {
    hide ReadableResult;
  }

  lemma SignOk(w: World, s: State, i: nat)
    requires AtStep(s, i, Signing) && RequestOk(w, s, i)
    requires Canonical(w, s.requests[i].result.output) == s.requests[i].result.output
    ensures Kept(s, DoSign(w, s, i, true)) && RequestOk(w, DoSign(w, s, i, true), i)
  {
    hide Lawful, Identity, SemanticDigest, InputBound, Accepted, WellConfigured, Bound, Canonical;
    var q := s.requests[i];
    assert q.result.(output := q.result.output) == q.result;
  }

  lemma StepSign(w: World, s: State, i: nat, ok: bool)
    requires Lawful(w) && Inv(w, s) && AtStep(s, i, Signing)
    ensures var s' := DoSign(w, s, i, ok); Kept(s, s') && Inv(w, s')
  {
    hide Lawful, Identity, SemanticDigest, InputBound, Accepted, WellConfigured, Bound, Canonical;
    var s' := DoSign(w, s, i, ok);
    AnswerIsProper(w, s, i);
    ProperIsCanonical(w, s.requests[i].result);
    assert RequestOk(w, s, i);
    if !ok {
      assert s' == Put(s, i, s'.requests[i]).(late := s.late + {});
      MoveRequest(w, s, i, s'.requests[i], {});
    } else {
      SignOk(w, s, i);
      assert StepOk(w, s, s', i) by {
        hide RequestOk, LateOk, RowOk, EntryOk, CallOk, Inv, Kept;
      }
      InvFromStep(w, s, s', i);
    }
  }

  lemma StepCrash(w: World, s: State, i: nat, pending: bool)
    requires Inv(w, s) && Enabled(w, s, Crash(i, pending))
    ensures var s' := Apply(w, s, Crash(i, pending)); Kept(s, s') && Inv(w, s')
  {
    hide Lawful, Identity, SemanticDigest, Canonical, InputBound, Accepted, WellConfigured, Bound;
    var s' := Apply(w, s, Crash(i, pending));
    var more := if pending then Outstanding(w, s.requests[i]) else {};
    assert RequestOk(w, s, i);
    assert s' == Put(s, i, s'.requests[i]).(late := s.late + more);
    MoveRequest(w, s, i, s'.requests[i], more);
  }
}
