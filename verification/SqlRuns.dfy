/** The guarantees of the execution protocol on the SQL store: every run of its
    statements refines a run on the atomic journal. */
module SqlRuns {
  import opened Words
  import opened Protocol
  import opened Messages
  import opened Execution
  import opened ExecutionSafety
  import opened ExecutionRuns
  import opened ExecutionBlocked
  import opened ExecutionReplay
  import opened SqlJournal
  import Z = SizeBudget

  /** At most once, on the SQL store. */
  lemma SqlAtMostOnce(w: World, run: seq<SqlLabel>, j: nat, k: nat)
    requires Lawful(w) && SqlAfter(w, run).Some?
    requires var s := SqlAfter(w, run).value.rest;
      j < |s.entries| && k < |s.entries| && Identity(s.entries[j].auth) == Identity(s.entries[k].auth)
    ensures j == k
  {
    hide Lawful, SqlInv, After, SqlAfter, Meaning, Identity;
    var atomic := SqlRefinement(w, run);
    AtMostOnce(w, atomic, j, k);
  }

  /** End to end, on the SQL store. */
  lemma SqlEndToEnd(w: World, run: seq<SqlLabel>, c: nat) returns (k: nat)
    requires Lawful(w) && SqlAfter(w, run).Some? && CollisionFree(w, Abstract(SqlAfter(w, run).value))
    requires var s := SqlAfter(w, run).value.rest; c < |s.calls| && s.calls[c].at.Succeeded?
    ensures var s := SqlAfter(w, run).value.rest;
      && Entries(s.entries, Identity(s.calls[c].auth)) == 1
      && k < |s.entries|
      && s.entries[k].auth
         == s.calls[c].auth.(issuedAt := s.entries[k].auth.issuedAt, expiresAt := s.entries[k].auth.expiresAt)
      && s.entries[k].returned.Some?
      && w.compact(s.entries[k].returned.value) == Some(s.calls[c].at.result.output)
  {
    hide Lawful, SqlInv, After, SqlAfter, Meaning, Identity, CollisionFree, Entries;
    var atomic := SqlRefinement(w, run);
    k := EndToEnd(w, atomic, c);
  }

  /** Agreement, on the SQL store. */
  lemma SqlAgreement(w: World, run: seq<SqlLabel>, i: nat, j: nat)
    requires Lawful(w) && SqlAfter(w, run).Some? && CollisionFree(w, Abstract(SqlAfter(w, run).value))
    requires var s := SqlAfter(w, run).value.rest;
      && i < |s.requests| && s.requests[i].at == Responded(200) && s.requests[i].auth.kind == "invocation"
      && j < |s.requests| && s.requests[j].at == Responded(200) && s.requests[j].auth.kind == "invocation"
      && Identity(s.requests[i].auth) == Identity(s.requests[j].auth)
    ensures var s := SqlAfter(w, run).value.rest;
      s.requests[i].result.(authorizationDigest := "") == s.requests[j].result.(authorizationDigest := "")
  {
    hide Lawful, SqlInv, After, SqlAfter, Meaning, Identity, CollisionFree;
    var atomic := SqlRefinement(w, run);
    Agreement(w, atomic, i, j);
  }

  /** Verifiability, on the SQL store. */
  lemma SqlVerifiable(w: World, run: seq<SqlLabel>, i: nat)
    requires Lawful(w) && SqlAfter(w, run).Some? && CollisionFree(w, Abstract(SqlAfter(w, run).value))
    requires var s := SqlAfter(w, run).value.rest; i < |s.requests| && s.requests[i].at == Responded(200)
    ensures var s := SqlAfter(w, run).value.rest;
      var q := s.requests[i];
      && Response(w, q, i) in s.signatures
      && w.parseResult(w.marshalResult(q.result)) == (if Nests(w, q.result.output) then Some(q.result) else None)
      && VerifyResult(w, q.result, q.auth, q.raw)
  {
    hide Lawful, SqlInv, After, SqlAfter, Meaning, CollisionFree, VerifyResult, Response;
    var atomic := SqlRefinement(w, run);
    Verifiable(w, atomic, i);
  }

  /** Which responses the caller accepts, on the SQL store. */
  lemma SqlAcceptedExactly(w: World, run: seq<SqlLabel>, i: nat, c: nat, now: int64)
    requires Lawful(w) && SqlAfter(w, run).Some? && CollisionFree(w, Abstract(SqlAfter(w, run).value))
    requires var s := Abstract(SqlAfter(w, run).value);
      && i < |s.requests| && s.requests[i].at == Responded(200) && c < |s.calls|
      && s.calls[c].raw == s.requests[i].raw
      && s.calls[c].options.signingKeyID == s.requests[i].cfg.signingKeyID
      && s.calls[c].options.signingKey == s.requests[i].cfg.signingKey
    ensures var s := Abstract(SqlAfter(w, run).value);
      var q := s.requests[i];
      Accepts(w, s, s.calls[c], q.cfg.signingKeyID, Response(w, q, i), w.marshalResult(q.result), now)
      <==> q.result.errorCode == "" && Nests(w, q.result.output) && 0 < q.result.completedAt <= now + 5
  {
    hide Lawful, SqlInv, After, SqlAfter, Abstract, CollisionFree, Accepts, Response;
    var atomic := SqlRefinement(w, run);
    AcceptedExactly(w, atomic, i, c, now);
  }

  /** Running on from a state of the store. */
  function SqlFrom(w: World, c: Sql, more: seq<SqlLabel>): Option<Sql> {
    if more == [] then Some(c)
    else
      var d := SqlFrom(w, c, more[..|more| - 1]);
      var l := more[|more| - 1];
      if d.Some? && SqlEnabled(w, d.value, l) then Some(SqlApply(w, d.value, l)) else None
  }

  lemma SqlBlockedStep(w: World, c: Sql, l: SqlLabel, identity: string)
    requires Lawful(w) && SqlInv(w, c) && SqlEnabled(w, c, l) && Blocked(Abstract(c), identity)
    ensures var c' := SqlApply(w, c, l);
      && SqlInv(w, c') && Blocked(Abstract(c'), identity) && |c.rest.entries| <= |c'.rest.entries|
      && (forall k :: 0 <= k < |c.rest.entries| ==> c'.rest.entries[k].auth == c.rest.entries[k].auth)
      && forall k :: |c.rest.entries| <= k < |c'.rest.entries| ==> Identity(c'.rest.entries[k].auth) != identity
  {
    hide Lawful, Inv, SqlEnabled, SqlApply, Enabled, Apply, AtomicLabel, Blocked, Identity, Meaning, Faithful,
         RequestKept, RowKept;
    var b := AtomicLabel(w, c, l);
    Refines(w, c, l);
    SqlStep(w, c, l);
    if b.Some? {
      EveryStep(w, Abstract(c), b.value);
      BlockedStep(w, Abstract(c), b.value, identity);
    }
  }

  /** A blocked row of the table stays blocked in every continuation, and no
      further handler entry is made for it. */
  lemma {:induction false} SqlBlockedForever(w: World, run: seq<SqlLabel>, more: seq<SqlLabel>, identity: string)
    requires Lawful(w) && SqlAfter(w, run).Some? && Blocked(Abstract(SqlAfter(w, run).value), identity)
    requires SqlFrom(w, SqlAfter(w, run).value, more).Some?
    ensures var c, c' := SqlAfter(w, run).value, SqlFrom(w, SqlAfter(w, run).value, more).value;
      && SqlInv(w, c') && Blocked(Abstract(c'), identity) && |c.rest.entries| <= |c'.rest.entries|
      && forall k :: |c.rest.entries| <= k < |c'.rest.entries| ==> Identity(c'.rest.entries[k].auth) != identity
    decreases |more|
  {
    hide Lawful, SqlInv, SqlEnabled, SqlApply, SqlAfter, Abstract, Blocked, Identity;
    var atomic := SqlRefinement(w, run);
    if more != [] {
      SqlBlockedForever(w, run, more[..|more| - 1], identity);
      SqlBlockedStep(w, SqlFrom(w, SqlAfter(w, run).value, more[..|more| - 1]).value, more[|more| - 1], identity);
    }
  }

  /** The statement that plays an onward step on the table. */
  function OnTable(l: Label): SqlLabel
    requires Onward(l)
  {
    match l
    case Late(st) => LateRun(st)
    case Complete(i, _, _) => UpdateRun(i, true, false)
    case _ => Other(l)
  }

  lemma OnTablePlays(w: World, c: Sql, l: Label)
    requires Lawful(w) && SqlInv(w, c) && Onward(l) && Enabled(w, Abstract(c), l)
    ensures SqlEnabled(w, c, OnTable(l)) && SqlInv(w, SqlApply(w, c, OnTable(l)))
    ensures Abstract(SqlApply(w, c, OnTable(l))) == Apply(w, Abstract(c), l)
  {
    hide Lawful, Inv, Apply, Meaning, SqlApply, Faithful;
    if !l.Complete? && !l.Late? {
      hide Enabled;
      JournalFree(w, Abstract(c), c.rest.journal, l);
      assert Abstract(c).(journal := c.rest.journal) == c.rest;
    }
    Refines(w, c, OnTable(l));
    SqlStep(w, c, OnTable(l));
  }

  lemma {:induction false} OnTableRun(w: World, c: Sql, more: seq<Label>) returns (played: seq<SqlLabel>)
    requires Lawful(w) && SqlInv(w, c) && From(w, Abstract(c), more).Some? && forall l :: l in more ==> Onward(l)
    ensures SqlFrom(w, c, played).Some? && SqlInv(w, SqlFrom(w, c, played).value)
    ensures Abstract(SqlFrom(w, c, played).value) == From(w, Abstract(c), more).value
    decreases |more|
  {
    hide Lawful, SqlInv, Abstract, Enabled, Apply, SqlEnabled, SqlApply, Onward, OnTable;
    played := [];
    if more != [] {
      var l := more[|more| - 1];
      var before := OnTableRun(w, c, more[..|more| - 1]);
      OnTablePlays(w, SqlFrom(w, c, before).value, l);
      played := before + [OnTable(l)];
      assert played[..|played| - 1] == before;
    }
  }

  /** Exactly the blocked rows of the table are never completed: for any other
      unfinished row some continuation writes its result. */
  lemma SqlBlockedExact(w: World, run: seq<SqlLabel>, identity: string)
    requires Lawful(w) && SqlAfter(w, run).Some? && Unfinished(Abstract(SqlAfter(w, run).value), identity)
    ensures Blocked(Abstract(SqlAfter(w, run).value), identity) <==>
      forall more :: SqlFrom(w, SqlAfter(w, run).value, more).Some? ==>
        Unfinished(Abstract(SqlFrom(w, SqlAfter(w, run).value, more).value), identity)
  {
    hide Lawful, Inv, SqlAfter, SqlFrom, From, OnItsWay, WriteSent, Meaning, Faithful, Onward;
    var c := SqlAfter(w, run).value;
    var atomic := SqlRefinement(w, run);
    if Blocked(Abstract(c), identity) {
      forall more | SqlFrom(w, c, more).Some? ensures Unfinished(Abstract(SqlFrom(w, c, more).value), identity) {
        SqlBlockedForever(w, run, more, identity);
      }
    } else {
      var more := Completable(w, Abstract(c), identity);
      var played := OnTableRun(w, c, more);
      assert !Unfinished(Abstract(SqlFrom(w, c, played).value), identity);
    }
  }

  /** No result is refused for its size: its update is never skipped. */
  lemma SqlResultsFit(w: World, run: seq<SqlLabel>, i: nat, signature: Bytes)
    requires Lawful(w) && SqlAfter(w, run).Some? && |signature| == 64
    requires i < |SqlAfter(w, run).value.rest.requests|
    requires var at := SqlAfter(w, run).value.rest.requests[i].at; at.Completing? || at.Signing?
    ensures Z.ResultFits(w, SqlAfter(w, run).value.rest.requests[i], signature)
  {
    hide Lawful, SqlInv, SqlAfter, After, Meaning, Z.ResultFits;
    var atomic := SqlRefinement(w, run);
    Z.ResultsFit(w, atomic, i, signature);
  }

  // ---- replay from the table ----

  lemma SqlFromStep(w: World, c: Sql, more: seq<SqlLabel>, d: Sql, l: SqlLabel)
    requires SqlFrom(w, c, more) == Some(d) && SqlEnabled(w, d, l)
    ensures SqlFrom(w, c, more + [l]) == Some(SqlApply(w, d, l))
  {
    hide SqlEnabled, SqlApply;
    assert (more + [l])[..|more|] == more;
  }

  /** An insert that finds the row taken only marks the request as selecting. */
  lemma InsertTaken(w: World, c: Sql, i: nat)
    requires Lawful(w) && SqlInv(w, c) && Asks(Abstract(c), i) && i !in c.selecting
    ensures SqlEnabled(w, c, InsertRun(i, true, false))
    ensures SqlApply(w, c, InsertRun(i, true, false)) == c.(selecting := c.selecting + {i})
  {
    hide Lawful, Inv, Identity, SemanticDigest, ValidIdentity, Faithful, RowResult;
    Z.RequestIdentity(w, Abstract(c), i);
  }

  /** The two statements of a reserve that finds the row taken. */
  lemma ReserveTaken(w: World, c: Sql, i: nat) returns (d: Sql)
    requires Lawful(w) && SqlInv(w, c) && Asks(Abstract(c), i) && i !in c.selecting
    ensures SqlFrom(w, c, [InsertRun(i, true, false), SelectRun(i, true)]) == Some(d) && SqlInv(w, d)
    ensures Abstract(d) == Apply(w, Abstract(c), Reserve(i, !SelectFails(w, c, i), false))
  {
    hide Lawful, Inv, Apply, Faithful, Identity, SemanticDigest, SqlApply, RowResult, TooDeep;
    var c1 := c.(selecting := c.selecting + {i});
    InsertTaken(w, c, i);
    SqlStep(w, c, InsertRun(i, true, false));
    d := SqlApply(w, c1, SelectRun(i, true));
    RefinesSelect(w, c1, i, true);
    SqlStep(w, c1, SelectRun(i, true));
    SqlFromStep(w, c, [], c, InsertRun(i, true, false));
    SqlFromStep(w, c, [] + [InsertRun(i, true, false)], c1, SelectRun(i, true));
    assert [] + [InsertRun(i, true, false)] + [SelectRun(i, true)] == [InsertRun(i, true, false), SelectRun(i, true)];
    assert SelectFails(w, c1, i) == SelectFails(w, c, i);
  }

  /** On the SQL store, in every run: a renewed grant for a completed operation
      is answered 200 with the stored result, unless that is too deep to be read
      back; nothing is entered and no row changes. */
  lemma SqlReplayed(w: World, run: seq<SqlLabel>, c: Sql, i: nat, now: int64) returns (d: Sql)
    requires Renewed(Abstract(c), i) && i !in c.selecting && now < c.rest.requests[i].auth.expiresAt
    requires !SelectFails(w, c, i)
    requires Lawful(w) && SqlAfter(w, run) == Some(c)
    ensures SqlFrom(w, c, [InsertRun(i, true, false), SelectRun(i, true),
                           Other(Proceed(i, true, now)), Other(Execution.Sign(i, true))]) == Some(d)
    ensures SqlInv(w, d) && Abstract(d) == Answered200(w, Abstract(c), i)
  {
    hide Lawful, SqlAfter, SqlInv, SqlFrom, Inv, From, After, Apply, Enabled, SqlApply, SqlEnabled, Restamp, Response,
         SelectFails, Identity, Meaning;
    var atomic := SqlRefinement(w, run);
    var s := Abstract(c);
    SqlInvHas(w, c);
    var c2 := ReserveTaken(w, c, i);
    ReplayedSteps(w, s, i, now);
    OnTablePlays(w, c2, Proceed(i, true, now));
    var c3 := SqlApply(w, c2, Other(Proceed(i, true, now)));
    OnTablePlays(w, c3, Execution.Sign(i, true));
    d := SqlApply(w, c3, Other(Execution.Sign(i, true)));
    var two := [InsertRun(i, true, false), SelectRun(i, true)];
    SqlFromStep(w, c, two, c2, Other(Proceed(i, true, now)));
    SqlFromStep(w, c, two + [Other(Proceed(i, true, now))], c3, Other(Execution.Sign(i, true)));
    assert two + [Other(Proceed(i, true, now))] + [Other(Execution.Sign(i, true))]
        == [InsertRun(i, true, false), SelectRun(i, true),
            Other(Proceed(i, true, now)), Other(Execution.Sign(i, true))];
  }

  lemma SqlInvHas(w: World, c: Sql)
    requires SqlInv(w, c)
    ensures Inv(w, Abstract(c))
  {
  }

  /** The same steps one by one, on the atomic journal. */
  lemma ReplayedSteps(w: World, s: State, i: nat, now: int64)
    requires Lawful(w) && Inv(w, s) && Renewed(s, i) && now < s.requests[i].auth.expiresAt
    ensures var s1 := Apply(w, s, Reserve(i, true, false));
      && Enabled(w, s1, Proceed(i, true, now))
      && var s2 := Apply(w, s1, Proceed(i, true, now));
         && Enabled(w, s2, Execution.Sign(i, true))
         && Apply(w, s2, Execution.Sign(i, true)) == Answered200(w, s, i)
  {
    hide Lawful, Inv, Apply, Enabled, From;
    ReplayedFrom(w, s, i, now);
    FromIsThree(w, s, Reserve(i, true, false), Proceed(i, true, now), Execution.Sign(i, true));
  }

  lemma FromIsThree(w: World, s: State, a: Label, b: Label, e: Label)
    requires From(w, s, [a, b, e]).Some?
    ensures Enabled(w, s, a)
    ensures var s1 := Apply(w, s, a);
      && Enabled(w, s1, b)
      && var s2 := Apply(w, s1, b);
         Enabled(w, s2, e) && Apply(w, s2, e) == From(w, s, [a, b, e]).value
  {
    hide Enabled, Apply;
    assert [a, b, e][..2] == [a, b] && [a, b][..1] == [a] && [a][..0] == [];
    assert From(w, s, []) == Some(s);
    assert From(w, s, [a]).Some?;
    assert From(w, s, [a, b]).Some?;
  }

  /** A stored result too deep to be read back is answered 503 each time. */
  lemma SqlTooDeepAnswered(w: World, run: seq<SqlLabel>, c: Sql, i: nat, now: int64) returns (d: Sql)
    requires Renewed(Abstract(c), i) && i !in c.selecting && now < c.rest.requests[i].auth.expiresAt
    requires SelectFails(w, c, i)
    requires Lawful(w) && SqlAfter(w, run) == Some(c)
    ensures SqlFrom(w, c, [InsertRun(i, true, false), SelectRun(i, true), Other(Proceed(i, true, now))]) == Some(d)
    ensures Abstract(d) == Put(Abstract(c), i, c.rest.requests[i].(at := Responded(503)))
  {
    hide Lawful, SqlAfter, SqlInv, SqlFrom, Inv, From, After, SqlApply, SqlEnabled, SelectFails, Identity, Meaning;
    var atomic := SqlRefinement(w, run);
    var s := Abstract(c);
    var c2 := ReserveTaken(w, c, i);
    var l := Proceed(i, true, now);
    OnTablePlays(w, c2, l);
    d := SqlApply(w, c2, Other(l));
    SqlFromStep(w, c, [InsertRun(i, true, false), SelectRun(i, true)], c2, Other(l));
    assert [InsertRun(i, true, false), SelectRun(i, true)] + [Other(l)]
        == [InsertRun(i, true, false), SelectRun(i, true), Other(l)];
  }

  /** And delivered to its caller from the SQL store. */
  lemma SqlReplayDelivered(w: World, run: seq<SqlLabel>, c: Sql, i: nat, k: nat, later: int64, d: Sql)
    requires Renewed(Abstract(c), i) && k < |c.rest.calls| && c.rest.calls[k].at.Waiting?
    requires c.rest.calls[k].raw == c.rest.requests[i].raw
    requires c.rest.calls[k].options.signingKeyID == c.rest.requests[i].cfg.signingKeyID
    requires c.rest.calls[k].options.signingKey == c.rest.requests[i].cfg.signingKey
    requires SqlInv(w, d) && Abstract(d) == Answered200(w, Abstract(c), i)
    requires Lawful(w) && SqlAfter(w, run) == Some(c)
    ensures var s, l := Abstract(c), Other(Delivery(w, Abstract(c), i, k, later));
      && SqlEnabled(w, d, l) && k < |SqlApply(w, d, l).rest.calls|
      && SqlApply(w, d, l).rest.calls[k].at ==
         if Stored(s, i).errorCode == "" && Nests(w, Stored(s, i).output) && 0 < Stored(s, i).completedAt <= later + 5
         then Succeeded(Restamp(w, s, i), i) else OutcomeUnknown
  {
    hide Lawful, SqlAfter, SqlInv, Inv, After, Apply, Enabled, SqlApply, SqlEnabled, Restamp, Response, Identity,
         Meaning, Nests;
    var atomic := SqlRefinement(w, run);
    var s := Abstract(c);
    ReplayDelivered(w, atomic, s, i, k, later);
    OnTablePlays(w, d, Delivery(w, s, i, k, later));
  }
}
