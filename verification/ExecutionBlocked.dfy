/** Reservations that can never be completed: exactly which they are, and that
    nothing is ever executed for them again. */
module ExecutionBlocked {
  import opened Words
  import opened Protocol
  import opened Messages
  import opened Execution
  import opened ExecutionSafety
  import opened ExecutionSteps
  import opened ExecutionRuns

  /** The request answered Fresh for `identity` is still on its way. */
  ghost predicate OnItsWay(s: State, identity: string) {
    && identity in s.owner && s.owner[identity] < |s.requests|
    && !s.requests[s.owner[identity]].at.Responded? && !s.requests[s.owner[identity]].at.Gone?
  }

  /** A write of its result was sent, and its fate is unknown. */
  ghost predicate WriteSent(s: State, identity: string) {
    exists st :: st in s.late && st.WriteResult? && st.identity == identity
  }

  ghost predicate Unfinished(s: State, identity: string) {
    identity in s.journal && s.journal[identity].result.None?
  }

  /** Reserved, without a result, and nobody left who could write one: the owner
      crashed, failed, let its grant expire or lost its write, or the insert
      took effect after its caller was told of an error. */
  ghost predicate Blocked(s: State, identity: string) {
    Unfinished(s, identity) && !OnItsWay(s, identity) && !WriteSent(s, identity)
  }

  // ---- a blocked reservation stays blocked ----

  /** A step that leaves the row, its owner and its outstanding writes alone. */
  ghost predicate Quiet(s: State, s': State, identity: string) {
    && identity in s.journal && identity in s'.journal && s'.journal[identity] == s.journal[identity]
    && (identity in s'.owner ==>
         && identity in s.owner && s'.owner[identity] == s.owner[identity]
         && s.owner[identity] < |s.requests| <= |s'.requests|
         && s'.requests[s.owner[identity]] == s.requests[s.owner[identity]])
    && (forall st :: st in s'.late && st.WriteResult? && st.identity == identity ==> st in s.late)
  }

  lemma QuietBlocked(s: State, s': State, identity: string)
    requires Blocked(s, identity) && Quiet(s, s', identity)
    ensures Blocked(s', identity)
  {
  }

  /** The owner of a blocked reservation does not move, and no other request
      has its identity and a result to write. */
  lemma NotOwner(w: World, s: State, i: nat, identity: string)
    requires Inv(w, s) && Blocked(s, identity) && i < |s.requests| && s.requests[i].owns
    requires !s.requests[i].at.Responded? && !s.requests[i].at.Gone?
    ensures Identity(s.requests[i].auth) != identity
  {
    hide Identity, SemanticDigest, Genuine, Admitted, RowOk, LateOk, SignatureOk, CallOk, EntryOk, AtOk, Response;
    assert RequestOk(w, s, i);
  }

  lemma OwnerInRange(w: World, s: State, identity: string)
    requires Inv(w, s) && identity in s.owner
    ensures s.owner[identity] < |s.requests|
  {
    hide RequestOk, RowOk, LateOk, SignatureOk, CallOk, EntryOk, Identity;
  }

  lemma QuietReserve(w: World, s: State, i: nat, ok: bool, pending: bool, identity: string)
    requires Inv(w, s) && Blocked(s, identity) && AtStep(s, i, Reserving)
    ensures Quiet(s, DoReserve(w, s, i, ok, pending), identity)
    ensures DoReserve(w, s, i, ok, pending).entries == s.entries
  {
    hide Identity, SemanticDigest, Inv;
    if identity in s.owner {
      OwnerInRange(w, s, identity);
    }
  }

  lemma QuietComplete(w: World, s: State, i: nat, ok: bool, pending: bool, identity: string)
    requires Inv(w, s) && Blocked(s, identity) && AtStep(s, i, Completing)
    ensures Quiet(s, DoComplete(w, s, i, ok, pending), identity)
    ensures DoComplete(w, s, i, ok, pending).entries == s.entries
  {
    hide Identity, SemanticDigest, Inv;
    CompletingOwns(w, s, i);
    NotOwner(w, s, i, identity);
    if identity in s.owner {
      OwnerInRange(w, s, identity);
    }
  }

  lemma CompletingOwns(w: World, s: State, i: nat)
    requires Inv(w, s) && AtStep(s, i, Completing)
    ensures s.requests[i].owns
  {
    hide Identity, SemanticDigest, Genuine, Admitted, RowOk, LateOk, SignatureOk, CallOk, EntryOk, Response;
    assert RequestOk(w, s, i);
  }

  lemma QuietLate(w: World, s: State, st: Statement, identity: string)
    requires Inv(w, s) && Blocked(s, identity) && st in s.late
    ensures Quiet(s, s.(journal := Perform(s.journal, st)), identity)
  {
    hide Inv;
    if identity in s.owner {
      OwnerInRange(w, s, identity);
    }
  }

  lemma QuietEnter(w: World, s: State, i: nat, live: bool, now: int64, identity: string)
    requires Inv(w, s) && Blocked(s, identity) && AtStep(s, i, Entering)
    ensures Quiet(s, DoEnter(w, s, i, live, now), identity)
    ensures Identity(s.requests[i].auth) != identity
  {
    hide Identity, Inv, Build;
    EnteringOwns(w, s, i);
    NotOwner(w, s, i, identity);
    if identity in s.owner {
      OwnerInRange(w, s, identity);
    }
  }

  lemma EnteringOwns(w: World, s: State, i: nat)
    requires Inv(w, s) && AtStep(s, i, Entering)
    ensures s.requests[i].owns
  {
    hide Identity, SemanticDigest, Genuine, Admitted, RowOk, LateOk, SignatureOk, CallOk, EntryOk, Response, Blank;
    assert RequestOk(w, s, i);
  }

  lemma QuietCrash(w: World, s: State, i: nat, pending: bool, identity: string)
    requires Inv(w, s) && Blocked(s, identity) && Enabled(w, s, Crash(i, pending))
    ensures Quiet(s, Apply(w, s, Crash(i, pending)), identity)
  {
    hide Inv, Identity, SemanticDigest;
    if s.requests[i].at.Completing? {
      CompletingOwns(w, s, i);
      NotOwner(w, s, i, identity);
    }
    if identity in s.owner {
      OwnerInRange(w, s, identity);
      if s.owner[identity] == i {
        assert s.requests[i].(at := Gone) == s.requests[i];
      }
    }
  }

  lemma QuietOther(w: World, s: State, l: Label, identity: string)
    requires Inv(w, s) && Blocked(s, identity) && Enabled(w, s, l)
    requires !l.Reserve? && !l.Complete? && !l.Late? && !l.Enter? && !l.Crash?
    ensures Quiet(s, Apply(w, s, l), identity) && |Apply(w, s, l).entries| == |s.entries|
  {
    hide Inv, Identity, SemanticDigest, NewRequest, FirstResult, Build, Accepts, ValidAuthorization, ValidGrant,
         SignedBy, WellConfigured, Expected, Exposed, Canonical, Signed, GrantActive;
    if identity in s.owner {
      OwnerInRange(w, s, identity);
    }
  }

  /** A blocked reservation stays blocked, whatever happens next, and no further
      handler entry for it is ever made. */
  lemma BlockedStep(w: World, s: State, l: Label, identity: string)
    requires Inv(w, s) && Enabled(w, s, l) && Blocked(s, identity)
    ensures Blocked(Apply(w, s, l), identity)
    ensures forall k :: |s.entries| <= k < |Apply(w, s, l).entries| ==>
      Identity(Apply(w, s, l).entries[k].auth) != identity
  {
    hide Inv, Identity, Blocked, Quiet, Build, DoReserve, DoComplete, Perform, Outstanding;
    match l {
      case Reserve(i, ok, pending) => QuietReserve(w, s, i, ok, pending, identity);
      case Complete(i, ok, pending) => QuietComplete(w, s, i, ok, pending, identity);
      case Late(st) => QuietLate(w, s, st, identity);
      case Enter(i, live, now) => QuietEnter(w, s, i, live, now, identity);
      case Crash(i, pending) => QuietCrash(w, s, i, pending, identity);
      case _ => QuietOther(w, s, l, identity);
    }
    QuietBlocked(s, Apply(w, s, l), identity);
  }

  /** Running on from a state. */
  function From(w: World, s: State, more: seq<Label>): Option<State> {
    if more == [] then Some(s)
    else
      var t := From(w, s, more[..|more| - 1]);
      var l := more[|more| - 1];
      if t.Some? && Enabled(w, t.value, l) then Some(Apply(w, t.value, l)) else None
  }

  /** A blocked reservation stays blocked in every continuation of the run, and
      its handler entries are those it had. */
  lemma {:induction false} BlockedForever(w: World, run: seq<Label>, more: seq<Label>, identity: string)
    requires Lawful(w) && After(w, run).Some? && Blocked(After(w, run).value, identity)
    requires From(w, After(w, run).value, more).Some?
    ensures var s, s' := After(w, run).value, From(w, After(w, run).value, more).value;
      && Inv(w, s') && Blocked(s', identity) && |s.entries| <= |s'.entries|
      && forall k :: |s.entries| <= k < |s'.entries| ==> Identity(s'.entries[k].auth) != identity
    decreases |more|
  {
    hide Inv, Enabled, Apply, Lawful, After, Blocked, Identity, RequestKept, RowKept;
    EveryRun(w, run);
    if more != [] {
      BlockedForever(w, run, more[..|more| - 1], identity);
      var t := From(w, After(w, run).value, more[..|more| - 1]).value;
      var l := more[|more| - 1];
      EveryStep(w, t, l);
      BlockedStep(w, t, l, identity);
    }
  }

  // ---- any other unfinished reservation can still be completed ----

  lemma FromStep(w: World, s: State, more: seq<Label>, t: State, l: Label)
    requires From(w, s, more) == Some(t) && Enabled(w, t, l)
    ensures From(w, s, more + [l]) == Some(Apply(w, t, l))
  {
    hide Enabled, Apply;
    assert (more + [l])[..|more|] == more;
  }

  /** The kinds of step that carry a reservation, and its answer, to the end. */
  predicate Onward(l: Label) {
    || l.Late? || l.Proceed? || l.Enter? || l.HandlerReturn? || l.Sign? || l.Deliver?
    || (l.Complete? && l.ok && !l.pending)
  }

  /** The write of an owner's result applies to its unfinished row. */
  lemma WriteApplies(w: World, s: State, identity: string, digest: string, r: Result)
    requires Inv(w, s) && Unfinished(s, identity) && identity in s.owner
    requires s.owner[identity] < |s.requests| && digest == SemanticDigest(w, s.requests[s.owner[identity]].auth)
    ensures var j := Perform(s.journal, WriteResult(identity, digest, r));
      identity in j && j[identity].result == Some(r)
    ensures Applies(s.journal, WriteResult(identity, digest, r))
  {
    hide SemanticDigest, Genuine, Admitted, RowOk, LateOk, SignatureOk, CallOk, EntryOk, AtOk, Response, Identity;
    assert RequestOk(w, s, s.owner[identity]);
  }

  /** While a write is outstanding, one more step completes the row. */
  lemma LateCompletes(w: World, s: State, st: Statement)
    requires Inv(w, s) && st in s.late && st.WriteResult? && Unfinished(s, st.identity)
    ensures Enabled(w, s, Late(st))
    ensures var s' := Apply(w, s, Late(st));
      st.identity in s'.journal && s'.journal[st.identity].result == Some(st.result)
  {
    hide SemanticDigest, RequestOk, RowOk, SignatureOk, CallOk, EntryOk, Perform;
    assert LateOk(w, s, st);
    WriteApplies(w, s, st.identity, st.digest, st.result);
  }

  ghost predicate OwnerAt(s: State, identity: string, i: nat) {
    identity in s.owner && s.owner[identity] == i < |s.requests| && Unfinished(s, identity)
  }

  lemma OwnerOwns(w: World, s: State, identity: string, i: nat)
    requires Inv(w, s) && OwnerAt(s, identity, i)
    ensures s.requests[i].owns && Identity(s.requests[i].auth) == identity
  {
    hide RequestOk, RowOk, LateOk, SignatureOk, CallOk, EntryOk, Identity;
  }

  lemma FromCompleting(w: World, s: State, more: seq<Label>, t: State, identity: string, i: nat)
    returns (longer: seq<Label>)
    requires Inv(w, t) && From(w, s, more) == Some(t) && OwnerAt(t, identity, i) && t.requests[i].at.Completing?
    ensures From(w, s, longer).Some? && identity in From(w, s, longer).value.journal
    ensures From(w, s, longer).value.journal[identity].result.Some?
    ensures (forall l :: l in more ==> Onward(l)) ==> forall l :: l in longer ==> Onward(l)
  {
    hide Inv, From, SemanticDigest, Perform, Identity;
    OwnerOwns(w, t, identity, i);
    var q := t.requests[i];
    WriteApplies(w, t, identity, SemanticDigest(w, q.auth), q.result);
    FromStep(w, s, more, t, Complete(i, true, false));
    longer := more + [Complete(i, true, false)];
  }

  /** Building the unknown outcome is always possible. */
  lemma FromBuilding(w: World, s: State, more: seq<Label>, t: State, identity: string, i: nat)
    returns (longer: seq<Label>)
    requires Lawful(w) && Inv(w, t) && From(w, s, more) == Some(t) && OwnerAt(t, identity, i)
    requires t.requests[i].at.Entering? || t.requests[i].at.Running?
    ensures From(w, s, longer).Some? && identity in From(w, s, longer).value.journal
    ensures From(w, s, longer).value.journal[identity].result.Some?
    ensures (forall l :: l in more ==> Onward(l)) ==> forall l :: l in longer ==> Onward(l)
  {
    hide Lawful, Inv, From, RecordedOutput;
    var l := if t.requests[i].at.Entering? then Enter(i, false, 0) else HandlerReturn(i, None, false, 0);
    RunningEntered(w, t, i);
    EveryStep(w, t, l);
    FromStep(w, s, more, t, l);
    longer := FromCompleting(w, s, more + [l], Apply(w, t, l), identity, i);
  }

  lemma RunningEntered(w: World, s: State, i: nat)
    requires Inv(w, s) && i < |s.requests|
    ensures s.requests[i].at.Running? ==> s.requests[i].entered.Some? && s.requests[i].entered.value < |s.entries|
    ensures s.requests[i].auth.expiresAt > 0
  {
    hide Identity, SemanticDigest, Genuine, RowOk, LateOk, SignatureOk, CallOk, EntryOk, Response, Blank,
         WellConfigured, ValidChallenge, ValidInvocation;
    assert RequestOk(w, s, i);
  }

  lemma FromReserved(w: World, s: State, more: seq<Label>, t: State, identity: string, i: nat)
    returns (longer: seq<Label>)
    requires Lawful(w) && Inv(w, t) && From(w, s, more) == Some(t) && OwnerAt(t, identity, i)
    requires t.requests[i].at == Reserved(Fresh)
    ensures From(w, s, longer).Some? && identity in From(w, s, longer).value.journal
    ensures From(w, s, longer).value.journal[identity].result.Some?
    ensures (forall l :: l in more ==> Onward(l)) ==> forall l :: l in longer ==> Onward(l)
  {
    hide Lawful, Inv, From;
    var l := Proceed(i, true, 0);
    RunningEntered(w, t, i);
    EveryStep(w, t, l);
    FromStep(w, s, more, t, l);
    longer := FromBuilding(w, s, more + [l], Apply(w, t, l), identity, i);
  }

  lemma OwnerStage(w: World, s: State, identity: string, i: nat)
    requires Inv(w, s) && OwnerAt(s, identity, i) && OnItsWay(s, identity)
    ensures var at := s.requests[i].at; at == Reserved(Fresh) || at.Entering? || at.Running? || at.Completing?
  {
    hide SemanticDigest, Genuine, Admitted, RowOk, LateOk, SignatureOk, CallOk, EntryOk, Response, Blank, Identity,
         Replayable, Answerable;
    OwnerOwns(w, s, identity, i);
    assert RequestOk(w, s, i);
  }

  lemma NothingMore(w: World, s: State)
    ensures From(w, s, []) == Some(s)
  {
  }

  lemma Completable(w: World, s: State, identity: string) returns (more: seq<Label>)
    requires Lawful(w) && Inv(w, s) && Unfinished(s, identity) && !Blocked(s, identity)
    ensures From(w, s, more).Some? && identity in From(w, s, more).value.journal
    ensures From(w, s, more).value.journal[identity].result.Some?
    ensures forall l :: l in more ==> Onward(l)
  {
    hide Lawful, Inv, From, Enabled, Apply;
    NothingMore(w, s);
    if WriteSent(s, identity) {
      var st :| st in s.late && st.WriteResult? && st.identity == identity;
      LateCompletes(w, s, st);
      FromStep(w, s, [], s, Late(st));
      more := [] + [Late(st)];
    } else {
      var i := s.owner[identity];
      OwnerStage(w, s, identity, i);
      match s.requests[i].at
      case Completing => more := FromCompleting(w, s, [], s, identity, i);
      case Reserved(_) => more := FromReserved(w, s, [], s, identity, i);
      case _ => more := FromBuilding(w, s, [], s, identity, i);
    }
  }

  /** Exactly the blocked reservations are never completed. */
  lemma BlockedExact(w: World, run: seq<Label>, identity: string)
    requires Lawful(w) && After(w, run).Some? && Unfinished(After(w, run).value, identity)
    ensures Blocked(After(w, run).value, identity) <==>
      forall more :: From(w, After(w, run).value, more).Some? ==>
        Unfinished(From(w, After(w, run).value, more).value, identity)
  {
    hide Lawful, Inv, After, From, OnItsWay, WriteSent;
    EveryRun(w, run);
    var s := After(w, run).value;
    if Blocked(s, identity) {
      forall more | From(w, s, more).Some? ensures Unfinished(From(w, s, more).value, identity) {
        BlockedForever(w, run, more, identity);
      }
    } else {
      var more := Completable(w, s, identity);
      assert !Unfinished(From(w, s, more).value, identity);
    }
  }
}
