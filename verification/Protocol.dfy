/** The signed messages of `bridge/protocol.go` and the checks both sides make
    on them. Foreign code enters as a record of functions: the SHA-256 digest
    and the JSON encoder and decoders. The digest is an arbitrary function; a
    result that needs it to be collision free says for which texts. */
module Protocol {
  import opened Words

  const PROTOCOL_VERSION := 1
  const MAX_INPUT := 0x40_0000
  const MAX_BODY := 0x100_0000

  const AUTHORIZATION_PURPOSE := "lotor-function-authorization-v1\n"
  const RESULT_PURPOSE := "lotor-function-result-v1\n"
  const VALIDATION_PURPOSE := "lotor-function-validation-v1\n"
  const RESOURCE_PURPOSE := "lotor-function-resource-access-v1\n"

  datatype Scope = Scope(tenantID: string, applicationID: string, environmentID: string, ownerResource: string)

  datatype Function = Function(name: string, version: string, inputSchema: string, outputSchema: string)

  datatype Authorization = Authorization(
    function_: Option<Function>,
    scope: Scope,
    kind: string,
    issuer: string,
    audience: string,
    bindingID: string,
    policyDigest: string,
    manifestDigest: string,
    inputDigest: string,
    id: string,
    nonce: string,
    principal: string,
    resources: seq<string>,
    capabilities: seq<string>,
    input: Bytes,
    expiresAt: int64,
    issuedAt: int64,
    protocolVersion: int64,
    bindingRevision: int64)

  datatype Result = Result(
    id: string,
    bindingID: string,
    manifestDigest: string,
    authorizationDigest: string,
    kind: string,
    nonce: string,
    errorCode: string,
    output: Bytes,
    protocolVersion: int64,
    bindingRevision: int64,
    completedAt: int64)

  /** Foreign code. `compact` is `json.Marshal` of a raw message: the canonical
      text, or `None` when the text is not valid JSON. */
  datatype World = World(
    digest: Bytes -> string,
    compact: Bytes -> Option<Bytes>,
    marshalAuthorization: Authorization -> Bytes,
    parseAuthorization: Bytes -> Option<Authorization>,
    marshalResult: Result -> Bytes,
    parseResult: Bytes -> Option<Result>)

  /** The canonical form of a raw message field; an absent field stays absent. */
  function Canonical(w: World, raw: Bytes): Bytes {
    if raw != [] && w.compact(raw).Some? then w.compact(raw).value else raw
  }

  predicate Printable(s: string) {
    forall c :: c in s ==> 32 < c as int < 127
  }

  /** `identifier`: one to `maximum` printable ASCII characters, no space. */
  predicate Identifier(s: string, maximum: nat) {
    1 <= |s| <= maximum && Printable(s)
  }

  /** `isDigest`: 64 lower-case hexadecimal characters. */
  predicate IsDigest(s: string) {
    |s| == 64 && forall c :: c in s ==> 'a' <= c <= 'f' || '0' <= c <= '9'
  }

  /** An identifier is a string of characters from `!` to `~` within the length. */
  lemma IdentifierExact(s: string, maximum: nat)
    ensures Identifier(s, maximum) <==>
      0 < |s| <= maximum && forall i :: 0 <= i < |s| ==> '!' <= s[i] <= '~'
  {
    assert forall i :: 0 <= i < |s| ==> s[i] in s;
  }

  function HexPair(x: byte): (s: string)
    ensures |s| == 2
  {
    ["0123456789abcdef"[x / 16], "0123456789abcdef"[x % 16]]
  }

  function HexOf(b: Bytes): (s: string)
    ensures |s| == 2 * |b|
  {
    if b == [] then "" else HexPair(b[0]) + HexOf(b[1..])
  }

  /** The digests are the lower-case hexadecimal spellings of 32 bytes. */
  lemma DigestExact(s: string)
    ensures IsDigest(s) <==> exists b: Bytes :: |b| == 32 && s == HexOf(b)
  {
    if IsDigest(s) {
      var b := BytesOf(s);
    }
    forall b: Bytes | |b| == 32 && s == HexOf(b) ensures IsDigest(s) {
      HexPlain(b);
    }
  }

  lemma {:induction false} HexPlain(b: Bytes)
    ensures forall c :: c in HexOf(b) ==> 'a' <= c <= 'f' || '0' <= c <= '9'
  {
    if b != [] {
      HexPlain(b[1..]);
    }
  }

  function Nibble(c: char): (n: int)
    requires 'a' <= c <= 'f' || '0' <= c <= '9'
    ensures 0 <= n < 16 && "0123456789abcdef"[n] == c
  {
    if c <= '9' then c as int - '0' as int else c as int - 'a' as int + 10
  }

  lemma PairOf(c: char, d: char) returns (x: byte)
    requires ('a' <= c <= 'f' || '0' <= c <= '9') && ('a' <= d <= 'f' || '0' <= d <= '9')
    ensures HexPair(x) == [c, d]
  {
    var m, n := Nibble(c), Nibble(d);
    x := m * 16 + n;
    assert x / 16 == m && x % 16 == n;
  }

  lemma {:induction false} BytesOf(s: string) returns (b: Bytes)
    requires |s| % 2 == 0 && forall c :: c in s ==> 'a' <= c <= 'f' || '0' <= c <= '9'
    ensures |b| == |s| / 2 && HexOf(b) == s
    decreases |s|
  {
    hide HexPair;
    b := [];
    if s != [] {
      assert s[0] in s && s[1] in s && |s[2..]| == |s| - 2;
      assert forall c :: c in s[2..] ==> c in s;
      var rest := BytesOf(s[2..]);
      var x := PairOf(s[0], s[1]);
      b := [x] + rest;
      assert b[1..] == rest && s == [s[0], s[1]] + s[2..];
    }
  }

  /** `validIdentity`: decoding and re-encoding a hexadecimal digest gives it
      back exactly when it is 64 lower-case digits. */
  predicate ValidIdentity(identity: string, digest: string) {
    Identifier(identity, 513) && IsDigest(digest)
  }

  predicate ValidScope(s: Scope) {
    Identifier(s.tenantID, 256) && Identifier(s.applicationID, 256)
    && Identifier(s.environmentID, 256) && Identifier(s.ownerResource, 256)
  }

  /** The authorization without its issue and expiry time: what two grants for
      the same operation have in common. */
  function Semantic(a: Authorization): Authorization {
    a.(issuedAt := 0, expiresAt := 0)
  }

  function SemanticText(w: World, a: Authorization): Bytes {
    w.marshalAuthorization(Semantic(a))
  }

  function SemanticDigest(w: World, a: Authorization): string {
    w.digest(SemanticText(w, a))
  }

  /** The journal identity of an operation. */
  function Identity(a: Authorization): string {
    a.bindingID + ":" + a.id
  }

  /** When two binding names can share a journal identity: exactly when one of
      them, with the separator, begins the other. */
  predicate Overlap(p: string, q: string) {
    p + ":" <= q || q + ":" <= p
  }

  lemma OverlapForced(p: string, q: string, x: string, y: string)
    requires p != q && p + ":" + x == q + ":" + y
    ensures Overlap(p, q)
  {
    var t := p + ":" + x;
    assert t[..|p|] == p && t[..|q|] == q && t[|p|] == t[|q|] == ':';
    if |p| < |q| {
      assert q[..|p| + 1] == t[..|p| + 1] == p + ":";
    } else {
      assert |q| != |p|;
      assert p[..|q| + 1] == t[..|q| + 1] == q + ":";
    }
  }

  /** The IDs under which two overlapping names meet, within the limits. */
  lemma OverlapMeets(p: string, q: string) returns (x: string)
    requires Identifier(p, 256) && Identifier(q, 256) && p + ":" <= q
    ensures Identifier(x, 256) && Identifier("!", 256) && p + ":" + x == q + ":" + "!"
  {
    var rest := q[|p| + 1..];
    x := rest + ":!";
    assert q == p + ":" + rest;
    assert forall c :: c in rest ==> c in q;
    assert ":!" == ":" + "!";
  }

  /** Operations of two different bindings share an identity for some pair of
      valid IDs if and only if the binding names overlap. */
  lemma IdentityExact(p: string, q: string)
    requires Identifier(p, 256) && Identifier(q, 256) && p != q
    ensures (exists x, y :: Identifier(x, 256) && Identifier(y, 256) && p + ":" + x == q + ":" + y) <==> Overlap(p, q)
  {
    hide Identifier;
    if p + ":" <= q {
      var x := OverlapMeets(p, q);
    }
    if q + ":" <= p {
      var y := OverlapMeets(q, p);
      assert p + ":" + "!" == q + ":" + y;
    }
    forall x, y | Identifier(x, 256) && Identifier(y, 256) && p + ":" + x == q + ":" + y ensures Overlap(p, q) {
      OverlapForced(p, q, x, y);
    }
  }

  /** Two operations with the same identity are the same operation, unless their
      binding names overlap; then they still differ semantically, so the later
      one is answered with a conflict. */
  lemma IdentityInjective(a: Authorization, b: Authorization)
    requires Identity(a) == Identity(b)
    ensures !Overlap(a.bindingID, b.bindingID) ==> a.bindingID == b.bindingID && a.id == b.id
    ensures a.bindingID != b.bindingID ==> Semantic(a) != Semantic(b)
  {
    if a.bindingID != b.bindingID {
      OverlapForced(a.bindingID, b.bindingID, a.id, b.id);
      assert Semantic(a).bindingID != Semantic(b).bindingID;
    }
    assert a.id == Identity(a)[|a.bindingID| + 1..] && b.id == Identity(b)[|b.bindingID| + 1..];
  }

  /** Two such operations. */
  lemma IdentityShared(a: Authorization)
    ensures var x, y := a.(bindingID := "a:b", id := "c"), a.(bindingID := "a", id := "b:c");
      && Identifier(x.bindingID, 256) && Identifier(x.id, 256) && Identifier(y.bindingID, 256) && Identifier(y.id, 256)
      && Identity(x) == Identity(y) && Semantic(x) != Semantic(y)
  {
    assert "a:b" + ":" + "c" == "a" + ":" + "b:c";
    assert |"a:b"| != |"a"|;
  }

  /** The field checks of `VerifyResult`, once the signature and the JSON are good. */
  predicate VerifyResult(w: World, r: Result, a: Authorization, raw: Bytes) {
    && |r.output| <= MAX_INPUT
    && r.protocolVersion == PROTOCOL_VERSION && r.id == a.id && r.kind == a.kind && r.bindingID == a.bindingID
    && r.bindingRevision == a.bindingRevision && r.manifestDigest == a.manifestDigest
    && r.authorizationDigest == w.digest(raw) && r.nonce == a.nonce
  }

  /** The input checks of an invocation that tie the digest to the bytes. */
  predicate InputBound(w: World, a: Authorization) {
    0 < |a.input| <= MAX_INPUT && w.compact(a.input).Some? && a.inputDigest == w.digest(a.input)
  }

  // ---- purpose separation ----

  function Code(c: char): byte
    requires c as int < 256
  {
    c as int
  }

  function Ascii(s: string): Bytes
    requires forall i :: 0 <= i < |s| ==> s[i] as int < 256
  {
    seq(|s|, i requires 0 <= i < |s| => Code(s[i]))
  }

  datatype Purpose = ForAuthorization | ForResult | ForValidation | ForResource

  function Tag(p: Purpose): string {
    match p
    case ForAuthorization => AUTHORIZATION_PURPOSE
    case ForResult => RESULT_PURPOSE
    case ForValidation => VALIDATION_PURPOSE
    case ForResource => RESOURCE_PURPOSE
  }

  /** The bytes an Ed25519 signature covers. */
  function Signed(p: Purpose, raw: Bytes): Bytes {
    Ascii(Tag(p)) + raw
  }

  /** A signature made for one purpose is never one for another: no purpose is
      a prefix of another, so the signed bytes determine both parts. */
  lemma PurposeSeparation(p: Purpose, x: Bytes, q: Purpose, y: Bytes)
    requires Signed(p, x) == Signed(q, y)
    ensures p == q && x == y
  {
    var a, b := Tag(p), Tag(q);
    assert Signed(p, x)[15] == a[15] as int && Signed(q, y)[15] == b[15] as int;
    assert Signed(p, x)[18] == a[18] as int && Signed(q, y)[18] == b[18] as int;
    assert a[15] == b[15] && a[18] == b[18];
    assert p == q;
    assert x == Signed(p, x)[|a|..] && y == Signed(q, y)[|b|..];
  }
}
