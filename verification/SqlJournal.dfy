/** `bridge/sqlstore/postgres.go`: the journal as a table that is read and
    written one statement at a time. `Reserve` is an insert followed, when the
    row was there already, by a separate select; other replicas' statements may
    run in between. Single statements are atomic and rows are never deleted. */
module SqlJournal {
  import opened Words
  import opened Protocol
  import opened Messages
  import opened Execution
  import opened ExecutionSafety
  import opened ExecutionSteps
  import opened ExecutionRuns
  import opened JsonText
  import Z = SizeBudget

  datatype SqlRow = SqlRow(digest: string, raw: Option<Bytes>)
  type Table = map<string, SqlRow>

  // ---- statements ----

  /** Inserting a reservation does nothing if the row is there. Each statement
      gives the table and the number of rows affected. */
  function Insert(t: Table, identity: string, digest: string): (r: (Table, nat)) {
    if identity in t then (t, 0) else (t[identity := SqlRow(digest, None)], 1)
  }

  function Select(t: Table, identity: string): Option<SqlRow> {
    if identity in t then Some(t[identity]) else None
  }

  /** Writing a result needs the same digest, and no other result there. */
  function Update(t: Table, identity: string, digest: string, raw: Bytes): (r: (Table, nat)) {
    if identity in t && t[identity].digest == digest && (t[identity].raw.None? || t[identity].raw == Some(raw))
    then (t[identity := SqlRow(digest, Some(raw))], 1) else (t, 0)
  }

  /** What `Reserve` makes of the row it selected. */
  function Interpret(w: World, row: Option<SqlRow>, digest: string): Answer {
    if row.None? then Unavailable
    else if row.value.digest != digest then Conflict
    else if row.value.raw.None? || row.value.raw.value == [] then InProgress
    else
      var raw := row.value.raw.value;
      if |raw| > MAX_BODY || w.parseResult(raw).None? then Unavailable
      else
        var r := w.parseResult(raw).value;
        if r.output == [] then Replay(r)
        else if w.compact(r.output).None? || |w.compact(r.output).value| > MAX_INPUT then Unavailable
        else Replay(r.(output := w.compact(r.output).value))
  }

  // ---- what a row stands for ----

  ghost function RowResult(row: SqlRow): Option<Result> {
    if row.raw.None? then None else ResultOf(row.raw.value)
  }

  /** The journal a table stands for. */
  ghost function Meaning(t: Table): Journal {
    map x | x in t :: Row(t[x].digest, RowResult(t[x]))
  }

  /** A row as `Complete` leaves it: no result, or the text of a result within
      its limits. */
  ghost predicate Faithful(w: World, row: SqlRow) {
    row.raw.Some? ==>
      && RowResult(row).Some? && Z.Storable(w, RowResult(row).value)
      && row.raw.value == ResultText(RowResult(row).value)
  }

  /** The stored result is too deeply nested for the decoder. */
  ghost predicate TooDeep(w: World, row: SqlRow) {
    RowResult(row).Some? && !Nests(w, RowResult(row).value.output)
  }

  /** What `Reserve` makes of a row is what the atomic journal answers for it,
      except that a result too deep to be read back is not replayed. */
  lemma InterpretExact(w: World, t: Table, identity: string, digest: string)
    requires Lawful(w) && identity in t && Faithful(w, t[identity])
    ensures Interpret(w, Some(t[identity]), digest) ==
      if t[identity].digest == digest && TooDeep(w, t[identity]) then Unavailable
      else ReserveAnswer(Meaning(t), identity, digest)
  {
    hide Lawful, ReadableResult, ResultText, ResultOf;
    var row := t[identity];
    if row.raw.Some? {
      MarshalledResult(w, RowResult(row).value);
    }
  }

  // ---- the store object ----

  /** How a row may evolve: absent, reserved, completed. */
  ghost predicate Evolves(t: Table, t': Table) {
    forall x :: x in t ==> x in t' && t'[x].digest == t[x].digest && (t[x].raw.Some? ==> t'[x].raw == t[x].raw)
  }

  class Store {
    var table: Table

    constructor ()
      ensures table == map[]
    {
      table := map[];
    }

    /** Any statements of any other clients of the same table. */
    method Others(theirs: seq<(string, string, Option<Bytes>)>)
      modifies this
      ensures Evolves(old(table), table)
    {
      var i := 0;
      while i < |theirs|
        invariant Evolves(old(table), table)
      {
        var (identity, digest, raw) := theirs[i];
        if raw.None? {
          table := Insert(table, identity, digest).0;
        } else {
          table := Update(table, identity, digest, raw.value).0;
        }
        i := i + 1;
      }
    }

    /** `Reserve`: `first` means this caller owns a new reservation. The answer
        is the atomic journal's for the table `at` some moment inside the call,
        unless the stored result is too deep to be read back, and the call's
        own effect is exactly the atomic effect at that moment. A call that is
        not `valid` is refused before it reaches the table. */
    method Reserve(w: World, identity: string, digest: string, theirs: seq<(string, string, Option<Bytes>)>)
      returns (valid: bool, first: bool, answer: Answer, ghost at: Table)
      modifies this
      ensures valid <==> ValidIdentity(identity, digest)
      ensures !valid ==> table == old(table) && !first && answer == Unavailable
      ensures valid ==> Evolves(old(table), at) && (first <==> identity !in at)
      ensures first ==> at == old(table) && table == at[identity := SqlRow(digest, None)]
      ensures valid && !first ==> table == at && (at[identity].digest != digest ==> answer == Conflict)
      ensures valid && Lawful(w) && (first || Faithful(w, at[identity])) ==>
        answer == if !first && at[identity].digest == digest && TooDeep(w, at[identity]) then Unavailable
                  else ReserveAnswer(Meaning(at), identity, digest)
    {
      at := table;
      if !ValidIdentity(identity, digest) {
        return false, false, Unavailable, at;
      }
      var inserted := Insert(table, identity, digest);
      table := inserted.0;
      if inserted.1 == 1 {
        return true, true, Fresh, at;
      }
      Others(theirs);
      at := table;
      answer := Interpret(w, Select(table, identity), digest);
      valid, first := true, false;
      if Lawful(w) && Faithful(w, at[identity]) {
        InterpretExact(w, at, identity, digest);
      }
    }

    /** `Complete`: refuses oversized results, then one guarded update. */
    method Complete(w: World, identity: string, digest: string, result: Result) returns (ok: bool)
      modifies this
      ensures ok <==> ValidIdentity(identity, digest)
                      && |result.output| <= MAX_INPUT && |w.marshalResult(result)| <= MAX_BODY / 2
                      && Update(old(table), identity, digest, w.marshalResult(result)).1 == 1
      ensures table == if ok then old(table)[identity := SqlRow(digest, Some(w.marshalResult(result)))] else old(table)
    {
      var raw := w.marshalResult(result);
      if !ValidIdentity(identity, digest) || |result.output| > MAX_INPUT || |raw| > MAX_BODY / 2 {
        return false;
      }
      var updated := Update(table, identity, digest, raw);
      table := updated.0;
      ok := updated.1 == 1;
    }
  }

  // ---- the protocol running on the table ----

  /** `rest` is the protocol state apart from the journal; `selecting` holds the
      requests whose insert found the row taken. */
  datatype Sql = Sql(table: Table, rest: State, selecting: set<nat>)

  const SQL_INITIAL := Sql(map[], INITIAL, {})

  datatype SqlLabel =
    | Other(step: Label)
    | InsertRun(i: nat, ok: bool, pending: bool)
    | SelectRun(i: nat, ok: bool)
    | UpdateRun(i: nat, ok: bool, pending: bool)
    | LateRun(statement: Statement)

  ghost function Abstract(c: Sql): State {
    c.rest.(journal := Meaning(c.table))
  }

  predicate SqlEnabled(w: World, c: Sql, l: SqlLabel) {
    match l
    case Other(b) => !b.Reserve? && !b.Complete? && !b.Late? && Enabled(w, c.rest, b)
    case InsertRun(i, _, _) => AtStep(c.rest, i, Reserving) && i !in c.selecting
    case SelectRun(i, _) => AtStep(c.rest, i, Reserving) && i in c.selecting
    case UpdateRun(i, _, _) => AtStep(c.rest, i, Completing)
    case LateRun(st) => st in c.rest.late
  }

  function DoInsert(w: World, c: Sql, i: nat, ok: bool, pending: bool): Sql
    requires i < |c.rest.requests|
  {
    var q := c.rest.requests[i];
    var identity, digest := Identity(q.auth), SemanticDigest(w, q.auth);
    if !ValidIdentity(identity, digest) then
      c.(rest := Put(c.rest, i, q.(at := Reserved(Unavailable))))
    else if !ok then
      c.(rest := Put(c.rest, i, q.(at := Reserved(Unavailable)))
                 .(late := if pending then c.rest.late + {InsertRow(identity, digest)} else c.rest.late))
    else
      var (table, count) := Insert(c.table, identity, digest);
      if count == 1 then
        Sql(table,
            Put(c.rest, i, q.(at := Reserved(Fresh), owns := true)).(owner := c.rest.owner[identity := i]),
            c.selecting)
      else c.(selecting := c.selecting + {i})
  }

  function SelectAnswer(w: World, c: Sql, i: nat, ok: bool): Answer
    requires i < |c.rest.requests|
  {
    var q := c.rest.requests[i];
    if ok then Interpret(w, Select(c.table, Identity(q.auth)), SemanticDigest(w, q.auth)) else Unavailable
  }

  function DoUpdate(w: World, c: Sql, i: nat, ok: bool, pending: bool): Sql
    requires i < |c.rest.requests|
  {
    var q := c.rest.requests[i];
    var identity, digest, raw := Identity(q.auth), SemanticDigest(w, q.auth), w.marshalResult(q.result);
    var (table, count) := Update(c.table, identity, digest, raw);
    if !ValidIdentity(identity, digest) || |q.result.output| > MAX_INPUT || |raw| > MAX_BODY / 2 then
      c.(rest := Put(c.rest, i, q.(at := Responded(503))))
    else if ok && count == 1 then c.(table := table, rest := Put(c.rest, i, q.(at := Signing)))
    else
      c.(rest := Put(c.rest, i, q.(at := Responded(503)))
                 .(late := if !ok && pending then c.rest.late + {WriteResult(identity, digest, q.result)}
                           else c.rest.late))
  }

  function DoLate(w: World, t: Table, st: Statement): Table {
    match st
    case InsertRow(identity, digest) => Insert(t, identity, digest).0
    case WriteResult(identity, digest, r) => Update(t, identity, digest, w.marshalResult(r)).0
  }

  function SqlApply(w: World, c: Sql, l: SqlLabel): Sql
    requires SqlEnabled(w, c, l)
  {
    match l
    case Other(b) => c.(rest := Apply(w, c.rest, b))
    case InsertRun(i, ok, pending) => DoInsert(w, c, i, ok, pending)
    case SelectRun(i, ok) =>
      c.(rest := Put(c.rest, i, c.rest.requests[i].(at := Reserved(SelectAnswer(w, c, i, ok)))))
    case UpdateRun(i, ok, pending) => DoUpdate(w, c, i, ok, pending)
    case LateRun(st) => c.(table := DoLate(w, c.table, st))
  }

  // ---- refinement ----

  ghost predicate SqlInv(w: World, c: Sql) {
    && Inv(w, Abstract(c))
    && (forall x :: x in c.table ==> Faithful(w, c.table[x]))
    && (forall i :: i in c.selecting ==>
         i < |c.rest.requests| && Identity(c.rest.requests[i].auth) in c.table)
  }

  /** The row that request `i` selects answers it, but is too deep to read. */
  ghost predicate SelectFails(w: World, c: Sql, i: nat)
    requires i < |c.rest.requests|
  {
    var q := c.rest.requests[i];
    && Identity(q.auth) in c.table && c.table[Identity(q.auth)].digest == SemanticDigest(w, q.auth)
    && TooDeep(w, c.table[Identity(q.auth)])
  }

  /** The atomic step a statement amounts to; an insert that finds the row taken
      amounts to none. A statement that succeeds is a store call that succeeds,
      except for a select of a result too deep to be read back. */
  ghost function AtomicLabel(w: World, c: Sql, l: SqlLabel): Option<Label>
    requires SqlEnabled(w, c, l)
  {
    match l
    case Other(b) => Some(b)
    case InsertRun(i, ok, pending) =>
      if ok && Identity(c.rest.requests[i].auth) in c.table then None else Some(Reserve(i, ok, pending))
    case SelectRun(i, ok) => Some(Reserve(i, ok && !SelectFails(w, c, i), false))
    case UpdateRun(i, ok, pending) => Some(Complete(i, ok, pending))
    case LateRun(st) => Some(Late(st))
  }

  lemma InsertMeaning(t: Table, identity: string, digest: string)
    ensures Meaning(Insert(t, identity, digest).0) == Perform(Meaning(t), InsertRow(identity, digest))
  {
    hide ResultOf;
  }

  lemma StoredReads(w: World, r: Result)
    requires Lawful(w) && Z.Storable(w, r)
    ensures w.marshalResult(r) == ResultText(r) && ResultOf(w.marshalResult(r)) == Some(r)
  {
    hide Lawful, ReadableResult, ResultText, ResultOf;
    MarshalledResult(w, r);
    ResultOfText(r);
  }

  /** Comparing stored bytes is comparing results. */
  lemma UpdateMeaning(w: World, t: Table, identity: string, digest: string, r: Result)
    requires Lawful(w) && Z.Storable(w, r)
    requires forall x :: x in t ==> Faithful(w, t[x])
    ensures var (t', n) := Update(t, identity, digest, w.marshalResult(r));
            var st := WriteResult(identity, digest, r);
            && (n == 1 <==> Applies(Meaning(t), st)) && Meaning(t') == Perform(Meaning(t), st)
            && forall x :: x in t' ==> Faithful(w, t'[x])
  {
    hide Lawful, ResultOf, ResultText, Z.Storable;
    StoredReads(w, r);
    if identity in t {
      assert Faithful(w, t[identity]);
    }
  }

  lemma ChecksJournalFree(w: World, s: State, j: Journal, b: Label)
    ensures b.Deliver? && b.c < |s.calls| ==>
      (Accepts(w, s.(journal := j), s.calls[b.c], b.keyID, b.signature, b.raw, b.now)
       <==> Accepts(w, s, s.calls[b.c], b.keyID, b.signature, b.raw, b.now))
    ensures forall key, m :: SignedBy(s.(journal := j), key, m) <==> SignedBy(s, key, m)
  {
    hide VerifyResult, Signed;
  }

  /** The steps that issue no statement do not look at the journal. */
  lemma JournalFree(w: World, s: State, j: Journal, b: Label)
    requires !b.Reserve? && !b.Complete? && !b.Late? && Enabled(w, s, b)
    ensures Enabled(w, s.(journal := j), b)
    ensures Apply(w, s.(journal := j), b) == Apply(w, s, b).(journal := j)
  {
    hide NewRequest, FirstResult, Build, Canonical, Signed, ValidAuthorization, ValidGrant, VerifyResult, Outstanding,
         Identity, SemanticDigest, GrantActive, Accepts, SignedBy, DoReserve, DoComplete, Perform;
    ChecksJournalFree(w, s, j, b);
    match b
    case Deliver(_, _, _, _, _) =>
    case Arrive(_, _, _, _, _) =>
    case Dispatch(_, _, _, _) =>
    case Proceed(_, _, _) =>
    case HandlerReturn(_, _, _, _) =>
    case _ =>
  }

  lemma RefinesOther(w: World, c: Sql, b: Label)
    requires SqlEnabled(w, c, Other(b))
    ensures Enabled(w, Abstract(c), b)
    ensures Abstract(SqlApply(w, c, Other(b))) == Apply(w, Abstract(c), b)
  {
    hide Apply, Meaning;
    JournalFree(w, c.rest, Meaning(c.table), b);
  }

  lemma RefinesInsert(w: World, c: Sql, i: nat, ok: bool, pending: bool)
    requires Lawful(w) && SqlInv(w, c) && SqlEnabled(w, c, InsertRun(i, ok, pending))
    ensures var c' := DoInsert(w, c, i, ok, pending);
      if ok && Identity(c.rest.requests[i].auth) in c.table then Abstract(c') == Abstract(c)
      else Enabled(w, Abstract(c), Reserve(i, ok, pending))
           && Abstract(c') == Apply(w, Abstract(c), Reserve(i, ok, pending))
  {
    hide Lawful, Inv, Identity, SemanticDigest, ValidIdentity, Faithful, RowResult;
    var q := c.rest.requests[i];
    Z.RequestIdentity(w, Abstract(c), i);
    InsertMeaning(c.table, Identity(q.auth), SemanticDigest(w, q.auth));
  }

  /** A select that succeeds answers exactly what an atomic `Reserve` would at
      that moment, unless the stored result is too deep to be read back. */
  lemma SelectIsAtomic(w: World, c: Sql, i: nat)
    requires Lawful(w) && SqlInv(w, c) && SqlEnabled(w, c, SelectRun(i, true))
    ensures var q := c.rest.requests[i];
      SelectAnswer(w, c, i, true) ==
        if SelectFails(w, c, i) then Unavailable
        else ReserveAnswer(Abstract(c).journal, Identity(q.auth), SemanticDigest(w, q.auth))
  {
    hide Lawful, Inv, Identity, SemanticDigest, Faithful, Interpret, TooDeep, RowResult;
    var q := c.rest.requests[i];
    InterpretExact(w, c.table, Identity(q.auth), SemanticDigest(w, q.auth));
  }

  lemma RefinesSelect(w: World, c: Sql, i: nat, ok: bool)
    requires Lawful(w) && SqlInv(w, c) && SqlEnabled(w, c, SelectRun(i, ok))
    ensures var c' := SqlApply(w, c, SelectRun(i, ok));
            var b := Reserve(i, ok && !SelectFails(w, c, i), false);
            Enabled(w, Abstract(c), b) && Abstract(c') == Apply(w, Abstract(c), b)
  {
    hide Lawful, Identity, SemanticDigest, Inv, Faithful, Interpret, SelectFails, RowResult;
    if ok {
      SelectIsAtomic(w, c, i);
    }
  }

  lemma RefinesUpdate(w: World, c: Sql, i: nat, ok: bool, pending: bool)
    requires Lawful(w) && SqlInv(w, c) && SqlEnabled(w, c, UpdateRun(i, ok, pending))
    ensures var c' := DoUpdate(w, c, i, ok, pending);
            var b := Complete(i, ok, pending);
            && Enabled(w, Abstract(c), b) && Abstract(c') == Apply(w, Abstract(c), b)
            && forall x :: x in c'.table ==> Faithful(w, c'.table[x])
  {
    hide Lawful, Inv, Identity, SemanticDigest, ValidIdentity, Faithful, Update, Meaning, Proper, ResultText;
    var q := c.rest.requests[i];
    CompletingBuilt(w, Abstract(c), i);
    Z.BuiltIsStorable(w, Abstract(c), i);
    MarshalledResult(w, q.result);
    Z.RequestIdentity(w, Abstract(c), i);
    UpdateMeaning(w, c.table, Identity(q.auth), SemanticDigest(w, q.auth), q.result);
  }

  lemma CompletingBuilt(w: World, s: State, i: nat)
    requires Inv(w, s) && AtStep(s, i, Completing)
    ensures s.requests[i].built
  {
    hide Identity, SemanticDigest, Admitted, Genuine, RowOk, LateOk, SignatureOk, CallOk, EntryOk, Response;
    assert RequestOk(w, s, i);
  }

  lemma LateStorable(w: World, s: State, st: Statement)
    requires Lawful(w) && Inv(w, s) && st in s.late && st.WriteResult?
    ensures Z.Storable(w, st.result)
  {
    hide Lawful, SemanticDigest, RequestOk, RowOk, SignatureOk, CallOk, EntryOk, Z.Storable;
    assert LateOk(w, s, st);
    Z.BuiltIsStorable(w, s, s.owner[st.identity]);
  }

  lemma RefinesLate(w: World, c: Sql, st: Statement)
    requires Lawful(w) && SqlInv(w, c) && SqlEnabled(w, c, LateRun(st))
    ensures var c' := SqlApply(w, c, LateRun(st));
            && Enabled(w, Abstract(c), Late(st)) && Abstract(c') == Apply(w, Abstract(c), Late(st))
            && forall x :: x in c'.table ==> Faithful(w, c'.table[x])
  {
    hide Lawful, Inv, Meaning, Z.Storable, Perform;
    match st
    case InsertRow(identity, digest) => InsertMeaning(c.table, identity, digest);
    case WriteResult(identity, digest, r) =>
      LateStorable(w, Abstract(c), st);
      UpdateMeaning(w, c.table, identity, digest, r);
  }

  /** Each statement is one atomic step, or none. */
  lemma Refines(w: World, c: Sql, l: SqlLabel)
    requires Lawful(w) && SqlInv(w, c) && SqlEnabled(w, c, l)
    ensures var c', b := SqlApply(w, c, l), AtomicLabel(w, c, l);
      if b.None? then Abstract(c') == Abstract(c)
      else Enabled(w, Abstract(c), b.value) && Abstract(c') == Apply(w, Abstract(c), b.value)
    ensures forall x :: x in SqlApply(w, c, l).table ==> Faithful(w, SqlApply(w, c, l).table[x])
  {
    hide Lawful, Inv, Abstract, Apply, DoUpdate, DoLate, Faithful, Identity, SemanticDigest;
    match l
    case Other(b) => RefinesOther(w, c, b);
    case InsertRun(i, ok, pending) =>
      RefinesInsert(w, c, i, ok, pending);
      InsertFaithful(w, c, i, ok, pending);
    case SelectRun(i, ok) => RefinesSelect(w, c, i, ok);
    case UpdateRun(i, ok, pending) => RefinesUpdate(w, c, i, ok, pending);
    case LateRun(st) => RefinesLate(w, c, st);
  }

  lemma InsertFaithful(w: World, c: Sql, i: nat, ok: bool, pending: bool)
    requires i < |c.rest.requests| && forall x :: x in c.table ==> Faithful(w, c.table[x])
    ensures var t := DoInsert(w, c, i, ok, pending).table; forall x :: x in t ==> Faithful(w, t[x])
  {
    hide Identity, SemanticDigest;
  }

  lemma SqlStep(w: World, c: Sql, l: SqlLabel)
    requires Lawful(w) && SqlInv(w, c) && SqlEnabled(w, c, l)
    ensures SqlInv(w, SqlApply(w, c, l))
  {
    hide Lawful, Inv, Apply, Faithful, Identity, SemanticDigest, SqlApply, SqlEnabled, Enabled, AtomicLabel, RowKept;
    var c', b := SqlApply(w, c, l), AtomicLabel(w, c, l);
    var s, s' := Abstract(c), Abstract(c');
    Refines(w, c, l);
    if b.Some? {
      EveryStep(w, s, b.value);
    }
    assert Inv(w, s');
    SelectingGrows(w, c, l);
    forall i | i in c'.selecting
      ensures i < |c'.rest.requests| && Identity(c'.rest.requests[i].auth) in c'.table
    {
      if i in c.selecting {
        assert Identity(c.rest.requests[i].auth) in s.journal;
        assert b.Some? ==> RequestKept(s.requests[i], s'.requests[i]);
      }
    }
  }

  lemma SelectingGrows(w: World, c: Sql, l: SqlLabel)
    requires SqlEnabled(w, c, l)
    ensures var c' := SqlApply(w, c, l);
      forall i :: i in c'.selecting && i !in c.selecting ==>
        i < |c'.rest.requests| && Identity(c'.rest.requests[i].auth) in c'.table
  {
    hide Identity, SemanticDigest, Apply, Enabled;
  }

  /** The state a run of statements leads to. */
  function SqlAfter(w: World, run: seq<SqlLabel>): Option<Sql> {
    if run == [] then Some(SQL_INITIAL)
    else
      var c := SqlAfter(w, run[..|run| - 1]);
      var l := run[|run| - 1];
      if c.Some? && SqlEnabled(w, c.value, l) then Some(SqlApply(w, c.value, l)) else None
  }

  lemma SqlInvInitial(w: World)
    ensures SqlInv(w, SQL_INITIAL) && Abstract(SQL_INITIAL) == INITIAL
  {
    InvInitial(w);
    assert Meaning(map[]) == map[];
  }

  /** Every run of the two-statement store is a run of the atomic journal: each
      answer given is the atomic answer at one point inside its call. */
  lemma {:induction false} SqlRefinement(w: World, run: seq<SqlLabel>) returns (atomic: seq<Label>)
    requires Lawful(w) && SqlAfter(w, run).Some?
    ensures SqlInv(w, SqlAfter(w, run).value)
    ensures After(w, atomic) == Some(Abstract(SqlAfter(w, run).value))
    decreases |run|
  {
    hide Lawful, SqlInv, SqlEnabled, SqlApply, Enabled, Apply, Abstract, After, AtomicLabel;
    if run == [] {
      SqlInvInitial(w);
      atomic := [];
      NoSteps(w);
    } else {
      atomic := SqlRefinement(w, run[..|run| - 1]);
      var c, l := SqlAfter(w, run[..|run| - 1]).value, run[|run| - 1];
      Refines(w, c, l);
      SqlStep(w, c, l);
      var b := AtomicLabel(w, c, l);
      if b.Some? {
        Extend(w, atomic, b.value);
        atomic := atomic + [b.value];
      }
    }
  }

  lemma NoSteps(w: World)
    ensures After(w, []) == Some(INITIAL)
  {
  }
}
