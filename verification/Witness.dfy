/** One concrete world and grant: the assumptions of the execution theorems are
    met together, a call succeeds, an output as deep as the decoder allows is
    signed and cannot be read, and a reservation ends up blocked. */
module Witness {
  import opened Words
  import opened Protocol
  import opened JsonText
  import opened Messages
  import opened Execution
  import opened ExecutionSafety
  import opened ExecutionRuns
  import opened ExecutionBlocked
  import opened ExecutionProgress
  import opened ExecutionReplay
  import M = Manifest

  // ---- a compaction that limits nesting ----

  /** The nesting limit of `encoding/json`. */
  const MAX_DEPTH := 10_000

  /** How many brackets are open at the end of a text without strings. */
  function Level(x: Bytes): int {
    if x == [] then 0
    else Level(x[..|x| - 1]) + if x[|x| - 1] == 91 then 1 else if x[|x| - 1] == 93 then -1 else 0
  }

  function Depth(x: Bytes): int {
    if x == [] then 0
    else
      var before := Depth(x[..|x| - 1]);
      if Level(x) > before then Level(x) else before
  }

  function Limited(x: Bytes): Option<Bytes> {
    if x != [] && Depth(x) <= MAX_DEPTH then Some(x) else None
  }

  /** The empty list, `n` levels deep. */
  function Nested(n: nat): (x: Bytes)
    ensures |x| == 2 * n
  {
    seq(n, _ => 91) + seq(n, _ => 93)
  }

  /** `n` opening brackets followed by `k` closing ones. */
  function Partial(n: nat, k: nat): (x: Bytes)
    ensures |x| == n + k
  {
    seq(n, _ => 91) + seq(k, _ => 93)
  }

  lemma {:induction false} PartialDepth(n: nat, k: nat)
    requires k <= n
    ensures Level(Partial(n, k)) == n - k && Depth(Partial(n, k)) == n
    decreases n + k
  {
    var x := Partial(n, k);
    if k > 0 {
      assert x[..|x| - 1] == Partial(n, k - 1) && x[|x| - 1] == 93;
      PartialDepth(n, k - 1);
    } else if n > 0 {
      assert x[..|x| - 1] == Partial(n - 1, 0) && x[|x| - 1] == 91;
      PartialDepth(n - 1, 0);
    }
  }

  /** The deepest list the compaction takes does not nest. */
  lemma DeepestDoesNotNest(w: World)
    requires w.compact == Limited
    ensures Clean(w, Nested(MAX_DEPTH)) && !Nests(w, Nested(MAX_DEPTH))
  {
    hide Depth;
    PartialDepth(MAX_DEPTH, MAX_DEPTH);
    PartialDepth(MAX_DEPTH + 1, MAX_DEPTH + 1);
    assert [91] + Nested(MAX_DEPTH) + [93] == Partial(MAX_DEPTH + 1, MAX_DEPTH + 1);
    assert Nested(MAX_DEPTH) == Partial(MAX_DEPTH, MAX_DEPTH);
  }

  const ONE: Bytes := [49]

  lemma OneNests(w: World)
    requires w.compact == Limited
    ensures w.compact(ONE) == Some(ONE) == Limited(ONE) && Nests(w, ONE) && |ONE| <= MAX_INPUT
  {
    var x: Bytes := [91] + ONE + [93];
    assert ONE[..0] == [] && x[..0] == [] && x[..1] == [91] && x[..2] == [91, 49];
    assert [91, 49][..1] == [91] && [91][..0] == [] && x[..2][..1] == [91];
    assert Level([91]) == 1 && Level([91, 49]) == 1 && Level(x) == 0;
    assert Depth([91]) == 1 && Depth([91, 49]) == 1 && Depth(x) == 1;
  }

  // ---- a grant ----

  function Hex(c: char): (s: string)
    ensures |s| == 64
  {
    seq(64, _ => c)
  }

  lemma HexIsDigest(c: char)
    requires 'a' <= c <= 'f'
    ensures IsDigest(Hex(c)) && Printable(Hex(c))
  {
  }

  const FUNCTION := Function("f", "1", Hex('a'), Hex('a'))
  const SCOPE := Scope("t", "t", "t", "t")

  const AUTHORIZATION := Authorization(
    Some(FUNCTION), SCOPE, "invocation", "i", "a", "b", "", Hex('a'), Hex('a'), "1", "", "p", [], [], ONE, 2, 1, 1, 1)

  const RAW := AuthorizationText(AUTHORIZATION)

  /** A hash that tells apart the texts hashed in the runs below. */
  function Hash(x: Bytes): string {
    if x == ONE then Hex('a') else if x == AuthorizationText(Semantic(AUTHORIZATION)) then Hex('b') else Hex('c')
  }

  ghost function TheWorld(): World {
    Codec(Hash, Limited)
  }

  const KEYS: map<string, Key> := map["k" := []]
  const CONFIG := Config(KEYS, SCOPE, "a", "b", "s", "i", [1], {FUNCTION}, Hex('a'), 1)
  const OPTIONS := Options(KEYS, SCOPE, Hex('a'), "i", "s", "a", "b", [1], 1)

  ghost function TheSetting(output: Bytes): Setting {
    Setting(CONFIG, OPTIONS, "k", RAW, AUTHORIZATION, 1, output)
  }

  lemma Letters()
    ensures forall s :: s in {"f", "1", "t", "i", "a", "b", "p", "s", "k"} ==> Identifier(s, 128) && Identifier(s, 256)
  {
  }

  lemma GrantIsReadable()
    ensures Readable(AUTHORIZATION) && Readable(Semantic(AUTHORIZATION))
  {
    hide Printable;
    Letters();
    HexIsDigest('a');
    WordsPrintable();
    assert Identifier("f", 128) && Identifier("1", 128) && Identifier("t", 128) && Identifier("i", 128)
           && Identifier("a", 128) && Identifier("b", 128) && Identifier("p", 128);
  }

  lemma WorldIsLawful()
    ensures Lawful(TheWorld()) && TheWorld().compact == Limited && TheWorld().digest == Hash
    ensures TheWorld().parseAuthorization(RAW) == Some(AUTHORIZATION)
    ensures SemanticText(TheWorld(), AUTHORIZATION) == AuthorizationText(Semantic(AUTHORIZATION))
  {
    hide AuthorizationText, ResultText, IsDigest, Lawful, Depth, AuthorizationOf, ResultOf, Readable;
    HexIsDigest('a');
    HexIsDigest('b');
    HexIsDigest('c');
    LawfulIsPossible(Hash, Limited);
    GrantIsReadable();
    AuthorizationOfText(AUTHORIZATION);
    OneNests(TheWorld());
  }

  lemma ConfigIsWell()
    ensures WellConfigured(CONFIG)
  {
    hide Printable, IsDigest;
    Letters();
    HexIsDigest('a');
    assert Identifier("f", 128) && Identifier("1", 128) && Identifier("t", 256) && Identifier("i", 256)
           && Identifier("a", 256) && Identifier("b", 256) && Identifier("s", 256) && Identifier("k", 256);
    assert M.WellFormed(FUNCTION) && "k" in CONFIG.trustedKeys;
  }

  lemma SettingIsReady(output: Bytes)
    requires Limited(output).Some? && |output| <= MAX_INPUT
    ensures Ready(TheWorld(), TheSetting(output))
  {
    hide AuthorizationText, Printable, IsDigest, Depth, WellConfigured;
    Letters();
    HexIsDigest('a');
    ConfigIsWell();
    WorldIsLawful();
    OneNests(TheWorld());
    assert Identifier("f", 128) && Identifier("1", 128) && Identifier("1", 256) && Identifier("p", 256);
    assert FUNCTION in CONFIG.functions;
  }

  lemma Hashes()
    ensures TheWorld().digest(ONE) == Hex('a') && TheWorld().digest(RAW) == Hex('c')
    ensures TheWorld().digest(SemanticText(TheWorld(), AUTHORIZATION)) == Hex('b')
    ensures Hex('a') != Hex('b') && Hex('b') != Hex('c') && Hex('a') != Hex('c')
  {
    hide AuthorizationText, Lawful, SemanticText, TheWorld, AUTHORIZATION;
    WorldIsLawful();
    TextsDiffer();
    assert Hex('a')[0] != Hex('b')[0] && Hex('b')[0] != Hex('c')[0] && Hex('a')[0] != Hex('c')[0];
  }

  ghost predicate OneGrant(s: State) {
    && (forall i :: 0 <= i < |s.requests| ==> s.requests[i].raw == RAW && s.requests[i].auth == AUTHORIZATION)
    && (forall c :: 0 <= c < |s.calls| ==> s.calls[c].raw == RAW)
  }

  lemma HashedOnly(s: State, x: Bytes)
    requires OneGrant(s) && Hashed(TheWorld(), s, x)
    ensures x == RAW || x == ONE || x == SemanticText(TheWorld(), AUTHORIZATION)
  {
    hide AuthorizationText, SemanticText, TheWorld, RAW;
  }

  /** Only three texts are hashed in a run of this one grant. */
  lemma NoCollision(s: State)
    requires OneGrant(s)
    ensures CollisionFree(TheWorld(), s)
  {
    hide AuthorizationText, SemanticText, TheWorld, RAW, AUTHORIZATION, Hex, Hashed, OneGrant;
    Hashes();
    var w := TheWorld();
    forall x, y | Hashed(w, s, x) && Hashed(w, s, y) && w.digest(x) == w.digest(y) ensures x == y {
      HashedOnly(s, x);
      HashedOnly(s, y);
    }
  }

  lemma TextsDiffer()
    ensures RAW != AuthorizationText(Semantic(AUTHORIZATION)) && RAW != ONE
    ensures AuthorizationText(Semantic(AUTHORIZATION)) != ONE
  {
    hide AuthorizationText, Readable;
    GrantIsReadable();
    assert AUTHORIZATION.issuedAt != Semantic(AUTHORIZATION).issuedAt;
    if RAW == AuthorizationText(Semantic(AUTHORIZATION)) {
      TextDetermines(AUTHORIZATION, Semantic(AUTHORIZATION));
    }
    TextIsObject(AUTHORIZATION);
    TextIsObject(Semantic(AUTHORIZATION));
  }

  lemma TextIsObject(a: Authorization)
    ensures |AuthorizationText(a)| > 0 && AuthorizationText(a)[0] == 123
  {
    hide Party, Operands, Times, NonEmptyList, NonEmptyRaw;
    PartyStarts(a);
  }

  // ---- the runs ----

  /** The undisturbed run of this grant, for a given handler output. */
  lemma TheRun(output: Bytes) returns (run: seq<Label>, s: State)
    requires Limited(output).Some? && |output| <= MAX_INPUT
    ensures |s.requests| == 1 && |s.calls| == 1
    ensures s.requests[0].at == Responded(200) && s.requests[0].result.errorCode == "" && s.requests[0].owns
    ensures Some(s.requests[0].result.output) == TheWorld().compact(output)
    ensures Nests(TheWorld(), s.requests[0].result.output) ==> s.calls[0].at.Succeeded?
    ensures !Nests(TheWorld(), s.requests[0].result.output) ==> s.calls[0].at == OutcomeUnknown
    ensures After(TheWorld(), run) == Some(s) && OneGrant(s)
  {
    hide Lawful, Ready, After, Nests, TheWorld, Limited, FirstResult, AUTHORIZATION, CONFIG, OPTIONS, RAW, Depth,
         AuthorizationText, Clean, Canonical, SemanticText;
    var w, x := TheWorld(), TheSetting(output);
    WorldIsLawful();
    SettingIsReady(output);
    OutcomeCanonical(w, x);
    FirstIsBlank(w, x);
    run := Undisturbed(w, x);
    s := After(w, run).value;
  }

  lemma FirstIsBlank(w: World, x: Setting)
    ensures Blanked(w, x).errorCode == ""
  {
  }

  /** The hypotheses of the end-to-end theorem are met by a run that ends in
      success. */
  lemma SuccessIsReachable() returns (w: World, run: seq<Label>, s: State)
    ensures |s.calls| == 1 && s.calls[0].at.Succeeded?
    ensures Lawful(w) && After(w, run) == Some(s) && CollisionFree(w, s)
  {
    hide *;
    w := TheWorld();
    WorldIsLawful();
    OneNests(w);
    run, s := TheRun(ONE);
    NoCollision(s);
  }

  /** A handler returns a list as deep as the decoder allows; the runtime signs
      it without an error, and the caller cannot tell what happened. */
  lemma DeepestIsUnreadable() returns (w: World, run: seq<Label>, s: State)
    ensures |s.requests| == 1 && s.requests[0].at == Responded(200) && s.requests[0].result.errorCode == ""
    ensures s.requests[0].result.output == Nested(MAX_DEPTH)
    ensures w.parseResult(w.marshalResult(s.requests[0].result)) == None
    ensures |s.calls| == 1 && s.calls[0].at == OutcomeUnknown
    ensures Lawful(w) && After(w, run) == Some(s) && CollisionFree(w, s)
  {
    hide Lawful, After, CollisionFree, TheWorld, Limited, OneGrant, Nests, Nested, VerifyResult, Response,
         AUTHORIZATION, RAW, Depth, AuthorizationText, SemanticText;
    w := TheWorld();
    WorldIsLawful();
    DeepestDoesNotNest(w);
    assert Nested(MAX_DEPTH) != [];
    run, s := TheRun(Nested(MAX_DEPTH));
    NoCollision(s);
    Verifiable(w, run, 0);
  }

  /** A reservation ends up blocked with its handler entered and its result lost. */
  lemma BlockedIsReachable() returns (w: World, run: seq<Label>, s: State, identity: string)
    ensures Lawful(w) && After(w, run) == Some(s) && Blocked(s, identity) && |s.entries| == 1
  {
    hide Lawful, Ready, After, Blocked, TheWorld, Limited, AUTHORIZATION, CONFIG, OPTIONS, RAW, Depth,
         AuthorizationText;
    w := TheWorld();
    WorldIsLawful();
    OneNests(w);
    SettingIsReady(ONE);
    run := LostWriteBlocks(w, TheSetting(ONE));
    s, identity := After(w, run).value, Identity(AUTHORIZATION);
  }

  /** The same operation with a later expiry. */
  const RENEWED := AUTHORIZATION.(expiresAt := 3)

  const RENEWED_RAW := AuthorizationText(RENEWED)

  lemma RenewedIsValid()
    ensures TheWorld().parseAuthorization(RENEWED_RAW) == Some(RENEWED)
    ensures ValidAuthorization(TheWorld(), CONFIG, RENEWED, false, 1)
  {
    hide AuthorizationText, Printable, IsDigest, Depth, WellConfigured, AuthorizationOf, Lawful;
    GrantIsReadable();
    AuthorizationOfText(RENEWED);
    SettingIsReady1();
    assert ValidAuthorization(TheWorld(), CONFIG, AUTHORIZATION, false, 1);
  }

  lemma SettingIsReady1()
    ensures Ready(TheWorld(), TheSetting(ONE))
  {
    hide Depth, AuthorizationText;
    WorldIsLawful();
    OneNests(TheWorld());
    SettingIsReady(ONE);
  }

  lemma RowWritten(w: World, s: State)
    requires Inv(w, s) && |s.requests| == 1 && s.requests[0].at == Responded(200) && s.requests[0].owns
    ensures var x := Identity(s.requests[0].auth);
      x in s.owner && s.owner[x] == 0 && x in s.journal && s.journal[x].result.Some?
  {
    hide Identity, SemanticDigest, Genuine, Admitted, AtOk, RowOk, LateOk, SignatureOk, CallOk, EntryOk, Response;
    assert RequestOk(w, s, 0);
  }

  /** A run in which a renewed grant for a completed operation is about to ask
      the journal. */
  lemma RenewalIsReachable() returns (w: World, run: seq<Label>, s: State, more: seq<Label>, t: State)
    ensures |t.requests| >= 2 && Renewed(t, 1)
    ensures Lawful(w) && After(w, run) == Some(s) && From(w, s, more) == Some(t)
  {
    hide Lawful, After, From, TheWorld, Limited, AuthorizationText, RAW, RENEWED_RAW, Depth, ValidAuthorization, Inv,
         WellConfigured, Signed, Identity;
    w := TheWorld();
    WorldIsLawful();
    OneNests(w);
    var first, s0 := TheRun(ONE);
    EveryRun(w, first);
    RowWritten(w, s0);
    RenewedIsValid();
    ConfigIsWell();
    var sign := SignOther([], ForAuthorization, RENEWED_RAW);
    run := first + [sign];
    Extend(w, first, sign);
    s := Apply(w, s0, sign);
    var g := ByOther([], Signed(ForAuthorization, RENEWED_RAW), ForAuthorization);
    assert g in s.signatures && SignedBy(s, [], Signed(ForAuthorization, RENEWED_RAW));
    var l := Arrive(CONFIG, "k", RENEWED_RAW, false, 1);
    assert Identity(RENEWED) == Identity(AUTHORIZATION) by { SameIdentity(); }
    RenewalAdmitted(w, run, s, l, 1, 1);
    more := [l] + [Authorize(1, Allowed, true, 1, 1)];
    t := From(w, s, more).value;
  }

  lemma SameIdentity()
    ensures Identity(RENEWED) == Identity(AUTHORIZATION)
  {
  }
}
