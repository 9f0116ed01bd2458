/** What is assumed of `encoding/json` and SHA-256, and what follows for the
    protocol's messages: the text of an authorization determines its fields, so
    equal semantic digests mean equal operations. */
module Messages {
  import opened Words
  import opened Protocol
  import opened JsonText

  predicate ReadableFunction(f: Function) {
    Printable(f.name) && Printable(f.version) && Printable(f.inputSchema) && Printable(f.outputSchema)
  }

  predicate ReadableScope(s: Scope) {
    Printable(s.tenantID) && Printable(s.applicationID) && Printable(s.environmentID) && Printable(s.ownerResource)
  }

  /** Every string is printable ASCII. */
  predicate Readable(a: Authorization) {
    && (a.function_.Some? ==> ReadableFunction(a.function_.value)) && ReadableScope(a.scope)
    && Printable(a.kind) && Printable(a.issuer) && Printable(a.audience) && Printable(a.bindingID)
    && Printable(a.policyDigest) && Printable(a.manifestDigest) && Printable(a.inputDigest)
    && Printable(a.id) && Printable(a.nonce) && Printable(a.principal)
    && (forall x :: x in a.resources ==> Printable(x)) && (forall x :: x in a.capabilities ==> Printable(x))
  }

  predicate ReadableResult(r: Result) {
    && Printable(r.id) && Printable(r.bindingID) && Printable(r.manifestDigest) && Printable(r.authorizationDigest)
    && Printable(r.kind) && Printable(r.nonce) && Printable(r.errorCode)
  }

  /** A raw field as the encoder writes it: absent, or canonical JSON. */
  predicate Clean(w: World, raw: Bytes) {
    raw == [] || w.compact(raw) == Some(raw)
  }

  /** A result as the runtime holds it: printable, with a clean output. */
  predicate Proper(w: World, r: Result) {
    ReadableResult(r) && Clean(w, r.output)
  }

  /** An output that is still valid JSON one level down. The decoder limits the
      depth of nesting, so the deepest texts it takes do not nest. */
  predicate Nests(w: World, raw: Bytes) {
    raw == [] || w.compact([91] + raw + [93]).Some?
  }

  /** What is assumed: digests are 64 hexadecimal digits; a canonical text is
      not empty and is its own canonical text; printable authorizations with a
      valid input and proper results are written as in `JsonText`; and a proper
      result is read back as it was written if its output nests, and refused
      otherwise. */
  ghost predicate Lawful(w: World) {
    && (forall x: Bytes :: IsDigest(w.digest(x)))
    && (forall x: Bytes :: w.compact(x).Some? ==>
         w.compact(x).value != [] && w.compact(w.compact(x).value) == w.compact(x))
    && (forall a: Authorization :: Readable(a) && (a.input == [] || w.compact(a.input).Some?) ==>
         w.marshalAuthorization(a) == AuthorizationText(a.(input := Canonical(w, a.input))))
    && (forall r: Result :: Proper(w, r) ==>
         w.marshalResult(r) == ResultText(r) && w.parseResult(ResultText(r)) == ReadBack(w, r))
  }

  function ReadBack(w: World, r: Result): Option<Result> {
    if Nests(w, r.output) then Some(r) else None
  }

  lemma HashIsHex(w: World, x: Bytes)
    requires Lawful(w)
    ensures IsDigest(w.digest(x))
  {
    hide Proper, Canonical, AuthorizationText, ResultText, Readable, IsDigest;
  }

  lemma MarshalledResult(w: World, r: Result)
    requires Lawful(w) && Proper(w, r)
    ensures w.marshalResult(r) == ResultText(r) && w.marshalResult(r) != []
    ensures w.parseResult(w.marshalResult(r)) == ReadBack(w, r)
  {
    hide Proper, ReadBack, Canonical, AuthorizationText, Readable, IsDigest, Text, NonEmptyText, NonEmptyRaw, Number;
  }

  lemma DigestLength(s: string)
    requires IsDigest(s)
    ensures |s| == 64 && Printable(s)
  {
  }

  lemma WordsPrintable()
    ensures Printable("") && Printable("invocation") && Printable("challenge") && Printable("outcome_unknown")
  {
  }

  // ---- peeling a text from the front ----

  lemma SamePrefix(p: Bytes, x: Bytes, y: Bytes)
    requires p + x == p + y
    ensures x == y
  {
    assert x == (p + x)[|p|..] && y == (p + y)[|p|..];
  }

  lemma LatinInjective(s: string, t: string)
    requires Printable(s) && Printable(t) && Latin(s) == Latin(t)
    ensures s == t
  {
    forall i | 0 <= i < |s| ensures s[i] == t[i] {
      assert s[i] in s && t[i] in t;
      assert Latin(s)[i] == s[i] as int % 256 && Latin(t)[i] == t[i] as int % 256;
    }
  }

  lemma PeelQuote(s: Bytes, t: Bytes, x: Bytes, y: Bytes)
    requires Quote(s) + x == Quote(t) + y
    ensures s == t && x == y
  {
    hide Escaped, ReadString;
    QuoteReadsBack(s, x);
    QuoteReadsBack(t, y);
    assert (Quote(s) + x)[1..] == Escaped(s) + [QUOTE] + x;
    assert (Quote(t) + y)[1..] == Escaped(t) + [QUOTE] + y;
  }

  lemma PeelText(name: string, s: string, t: string, x: Bytes, y: Bytes)
    requires Printable(s) && Printable(t) && Text(name, s) + x == Text(name, t) + y
    ensures s == t && x == y
  {
    hide Quote, Head, Printable;
    assert Text(name, s) + x == Head(name) + (Quote(Latin(s)) + x);
    assert Text(name, t) + y == Head(name) + (Quote(Latin(t)) + y);
    SamePrefix(Head(name), Quote(Latin(s)) + x, Quote(Latin(t)) + y);
    PeelQuote(Latin(s), Latin(t), x, y);
    LatinInjective(s, t);
  }

  lemma PeelMember(name: string, s: Bytes, t: Bytes, x: Bytes, y: Bytes)
    requires Member(name, s) + x == Member(name, t) + y
    ensures s + x == t + y
  {
    hide Head;
    assert Member(name, s) + x == Head(name) + (s + x) && Member(name, t) + y == Head(name) + (t + y);
    SamePrefix(Head(name), s + x, t + y);
  }

  /** A text that does not begin with the member `name`. */
  predicate Lacks(name: string, x: Bytes) {
    !(Head(name) <= x)
  }

  lemma OtherMember(name: string, other: string, text: Bytes, x: Bytes, k: nat)
    requires k < |name| && k < |other| && name[k] as int % 256 != other[k] as int % 256
    ensures Lacks(name, Member(other, text) + x)
  {
    var t := Member(other, text) + x;
    assert t[k + 2] == Latin(other)[k] && Head(name)[k + 2] == Latin(name)[k];
  }

  lemma PeelNonEmpty(name: string, s: string, t: string, x: Bytes, y: Bytes)
    requires Printable(s) && Printable(t) && NonEmptyText(name, s) + x == NonEmptyText(name, t) + y
    requires Lacks(name, x) && Lacks(name, y)
    ensures s == t && x == y
  {
    hide Quote, Head, Printable;
    Begins(name, Quote(Latin(s)), x);
    Begins(name, Quote(Latin(t)), y);
    assert [] + x == x && [] + y == y;
    if s != "" && t != "" {
      PeelText(name, s, t, x, y);
    }
  }

  lemma Begins(name: string, text: Bytes, x: Bytes)
    ensures !Lacks(name, Member(name, text) + x)
  {
    hide Head;
    assert Member(name, text) + x == Head(name) + (text + x);
  }

  lemma FirstElement(a: seq<string>, x: Bytes)
    ensures (Elements(a) + ([93] + x))[0] == if a == [] then 93 else COMMA
  {
  }

  lemma {:induction false} PeelElements(a: seq<string>, b: seq<string>, x: Bytes, y: Bytes)
    requires (forall s :: s in a ==> Printable(s)) && (forall s :: s in b ==> Printable(s))
    requires Elements(a) + ([93] + x) == Elements(b) + ([93] + y)
    ensures a == b && x == y
  {
    hide Quote, Printable;
    var l, r := Elements(a) + ([93] + x), Elements(b) + ([93] + y);
    FirstElement(a, x);
    FirstElement(b, y);
    if a == [] && b == [] {
      assert l == [93] + x && r == [93] + y;
      SamePrefix([93], x, y);
    } else if a != [] && b != [] {
      var l', r' := Elements(a[1..]) + ([93] + x), Elements(b[1..]) + ([93] + y);
      assert l == [COMMA] + (Quote(Latin(a[0])) + l') && r == [COMMA] + (Quote(Latin(b[0])) + r');
      SamePrefix([COMMA], Quote(Latin(a[0])) + l', Quote(Latin(b[0])) + r');
      PeelQuote(Latin(a[0]), Latin(b[0]), l', r');
      LatinInjective(a[0], b[0]);
      PeelElements(a[1..], b[1..], x, y);
      assert a == [a[0]] + a[1..] && b == [b[0]] + b[1..];
    }
  }

  lemma PeelList(name: string, a: seq<string>, b: seq<string>, x: Bytes, y: Bytes)
    requires (forall s :: s in a ==> Printable(s)) && (forall s :: s in b ==> Printable(s))
    requires NonEmptyList(name, a) + x == NonEmptyList(name, b) + y
    requires Lacks(name, x) && Lacks(name, y)
    ensures a == b && x == y
  {
    hide Quote, Head, Printable;
    Begins(name, Bracketed(a), x);
    Begins(name, Bracketed(b), y);
    assert [] + x == x && [] + y == y;
    if a != [] && b != [] {
      PeelMember(name, Bracketed(a), Bracketed(b), x, y);
      Unbracket(91, Elements(a), Elements(b), 93, x, y);
      PeelElements(a, b, x, y);
    }
  }

  /** Two bracketed texts whose leading comma was dropped. */
  lemma Unbracket(open: byte, m: Bytes, n: Bytes, close: byte, x: Bytes, y: Bytes)
    requires m != [] && n != [] && m[0] == n[0]
    requires [open] + m[1..] + [close] + x == [open] + n[1..] + [close] + y
    ensures m + ([close] + x) == n + ([close] + y)
  {
    assert [open] + m[1..] + [close] + x == [open] + (m[1..] + ([close] + x));
    assert [open] + n[1..] + [close] + y == [open] + (n[1..] + ([close] + y));
    SamePrefix([open], m[1..] + ([close] + x), n[1..] + ([close] + y));
    assert m + ([close] + x) == [m[0]] + (m[1..] + ([close] + x));
    assert n + ([close] + y) == [n[0]] + (n[1..] + ([close] + y));
  }

  lemma PeelFour(p: string, q: string, r: string, s: string, a: seq<string>, b: seq<string>, x: Bytes, y: Bytes)
    requires |a| == 4 && |b| == 4 && (forall i :: 0 <= i < 4 ==> Printable(a[i]) && Printable(b[i]))
    requires Four(p, q, r, s, a) + x == Four(p, q, r, s, b) + y
    ensures a == b && x == y
  {
    hide Text, Printable;
    var a3, b3 := Text(s, a[3]) + x, Text(s, b[3]) + y;
    var a2, b2 := Text(r, a[2]) + a3, Text(r, b[2]) + b3;
    var a1, b1 := Text(q, a[1]) + a2, Text(q, b[1]) + b2;
    assert Four(p, q, r, s, a) + x == Text(p, a[0]) + a1 && Four(p, q, r, s, b) + y == Text(p, b[0]) + b1;
    PeelText(p, a[0], b[0], a1, b1);
    PeelText(q, a[1], b[1], a2, b2);
    PeelText(r, a[2], b[2], a3, b3);
    PeelText(s, a[3], b[3], x, y);
  }

  function Four(p: string, q: string, r: string, s: string, a: seq<string>): (t: Bytes)
    requires |a| == 4
    ensures t != [] && t[0] == COMMA
  {
    Text(p, a[0]) + Text(q, a[1]) + Text(r, a[2]) + Text(s, a[3])
  }

  lemma PeelObject(p: string, q: string, r: string, s: string, a: seq<string>, b: seq<string>, x: Bytes, y: Bytes)
    requires |a| == 4 && |b| == 4 && (forall i :: 0 <= i < 4 ==> Printable(a[i]) && Printable(b[i]))
    requires Object(Four(p, q, r, s, a)) + x == Object(Four(p, q, r, s, b)) + y
    ensures a == b && x == y
  {
    hide Four, Printable;
    var m, n := Four(p, q, r, s, a), Four(p, q, r, s, b);
    Unbracket(123, m, n, 125, x, y);
    PeelFour(p, q, r, s, a, b, [125] + x, [125] + y);
    SamePrefix([125], x, y);
  }

  lemma PeelScope(s: Scope, t: Scope, x: Bytes, y: Bytes)
    requires ReadableScope(s) && ReadableScope(t) && ScopeText(s) + x == ScopeText(t) + y
    ensures s == t && x == y
  {
    hide Text, Printable;
    var a := [s.tenantID, s.applicationID, s.environmentID, s.ownerResource];
    var b := [t.tenantID, t.applicationID, t.environmentID, t.ownerResource];
    PeelObject("tenant_id", "application_id", "environment_id", "owner_resource", a, b, x, y);
    assert a[0] == b[0] && a[1] == b[1] && a[2] == b[2] && a[3] == b[3];
  }

  lemma PeelFunction(f: Function, g: Function, x: Bytes, y: Bytes)
    requires ReadableFunction(f) && ReadableFunction(g) && FunctionText(f) + x == FunctionText(g) + y
    ensures f == g && x == y
  {
    hide Text, Printable;
    var a := [f.name, f.version, f.inputSchema, f.outputSchema];
    var b := [g.name, g.version, g.inputSchema, g.outputSchema];
    PeelObject("name", "version", "input_schema_digest", "output_schema_digest", a, b, x, y);
    assert a[0] == b[0] && a[1] == b[1] && a[2] == b[2] && a[3] == b[3];
  }

  // ---- peeling numbers from the back ----

  lemma {:induction false} DigitsPlain(n: nat)
    ensures Digits(n) != [] && forall c :: c in Digits(n) ==> 48 <= c <= 57
  {
    if n >= 10 {
      DigitsPlain(n / 10);
    }
  }

  lemma {:induction false} DigitsInjective(m: nat, n: nat)
    requires Digits(m) == Digits(n)
    ensures m == n
  {
    DigitsPlain(m / 10);
    DigitsPlain(n / 10);
    var d := Digits(m);
    assert d[|d| - 1] == 48 + m % 10 && d[|d| - 1] == 48 + n % 10;
    if m >= 10 && n >= 10 {
      assert Digits(m / 10) == d[..|d| - 1] && Digits(n / 10) == d[..|d| - 1];
      DigitsInjective(m / 10, n / 10);
    } else {
      assert m < 10 && n < 10 by {
        assert |Digits(m)| == |Digits(n)|;
      }
    }
  }

  lemma DecimalInjective(m: int64, n: int64)
    ensures COLON !in Decimal(m)
    ensures Decimal(m) == Decimal(n) ==> m == n
  {
    var i: int, j: int := m, n;
    DigitsPlain(if i < 0 then -i else i);
    DigitsPlain(if j < 0 then -j else j);
    if Decimal(m) == Decimal(n) {
      assert Decimal(m)[0] in Decimal(m) && Decimal(n)[0] in Decimal(n);
      if m < 0 && n < 0 {
        SamePrefix([45], Digits(-i), Digits(-j));
        DigitsInjective(-i, -j);
      } else if m >= 0 && n >= 0 {
        DigitsInjective(m, n);
      }
    }
  }

  lemma LastColon(p: Bytes, q: Bytes, d: Bytes, e: Bytes)
    requires p + [COLON] + d == q + [COLON] + e && COLON !in d && COLON !in e
    ensures p == q && d == e
  {
    var t := p + [COLON] + d;
    assert t[|p|] == COLON && t[|q|] == COLON;
    assert forall i :: |p| < i < |t| ==> t[i] == d[i - |p| - 1];
    assert forall i :: |q| < i < |t| ==> t[i] == e[i - |q| - 1];
    assert |p| == |q|;
    assert p == t[..|p|] && q == t[..|q|] && d == t[|p| + 1..] && e == t[|q| + 1..];
  }

  lemma PeelNumber(name: string, m: int64, n: int64, x: Bytes, y: Bytes)
    requires x + Number(name, m) == y + Number(name, n)
    ensures m == n && x == y
  {
    hide Decimal;
    var h := [COMMA, QUOTE] + Latin(name) + [QUOTE];
    assert x + Number(name, m) == (x + h) + [COLON] + Decimal(m);
    assert y + Number(name, n) == (y + h) + [COLON] + Decimal(n);
    DecimalInjective(m, n);
    DecimalInjective(n, m);
    LastColon(x + h, y + h, Decimal(m), Decimal(n));
    assert x == (x + h)[..|x + h| - |h|] && y == (y + h)[..|y + h| - |h|];
  }

  lemma PeelTimes(a: Authorization, b: Authorization, x: Bytes, y: Bytes)
    requires x + Times(a) == y + Times(b)
    ensures x == y && a.expiresAt == b.expiresAt && a.issuedAt == b.issuedAt
    ensures a.protocolVersion == b.protocolVersion && a.bindingRevision == b.bindingRevision
  {
    hide Number;
    var x1, y1 := x + Number("expires_at", a.expiresAt), y + Number("expires_at", b.expiresAt);
    var x2, y2 := x1 + Number("issued_at", a.issuedAt), y1 + Number("issued_at", b.issuedAt);
    var x3 := x2 + Number("protocol_version", a.protocolVersion);
    var y3 := y2 + Number("protocol_version", b.protocolVersion);
    assert x + Times(a) == x3 + Number("binding_revision", a.bindingRevision);
    assert y + Times(b) == y3 + Number("binding_revision", b.bindingRevision);
    PeelNumber("binding_revision", a.bindingRevision, b.bindingRevision, x3, y3);
    PeelNumber("protocol_version", a.protocolVersion, b.protocolVersion, x2, y2);
    PeelNumber("issued_at", a.issuedAt, b.issuedAt, x1, y1);
    PeelNumber("expires_at", a.expiresAt, b.expiresAt, x, y);
  }

  /** Reading decimal digits. */
  function Value(s: Bytes): int {
    if s == [] then 0 else 10 * Value(s[..|s| - 1]) + s[|s| - 1] - 48
  }

  /** The digits of a number are its decimal digits. */
  lemma {:induction false} DigitsValue(n: nat)
    ensures Value(Digits(n)) == n
  {
    if n >= 10 {
      DigitsValue(n / 10);
      var d := Digits(n);
      assert d[..|d| - 1] == Digits(n / 10) && d[|d| - 1] == 48 + n % 10;
    } else {
      assert Digits(n)[..0] == [];
    }
  }

  // ---- every field is written under its name ----

  /** `"name":text` somewhere in `t`. */
  ghost predicate Writes(t: Bytes, name: string, text: Bytes) {
    exists x, y :: t == x + ([QUOTE] + Latin(name) + [QUOTE, COLON] + text) + y
  }

  lemma WritesMember(name: string, text: Bytes)
    ensures Writes(Member(name, text), name, text)
  {
    assert Member(name, text) == [COMMA] + ([QUOTE] + Latin(name) + [QUOTE, COLON] + text) + [];
  }

  lemma WritesInside(t: Bytes, name: string, text: Bytes, p: Bytes, q: Bytes)
    requires Writes(t, name, text)
    ensures Writes(p + t + q, name, text)
  {
    var m := [QUOTE] + Latin(name) + [QUOTE, COLON] + text;
    var x, y :| t == x + m + y;
    assert p + t + q == (p + x) + m + (y + q);
  }

  /** Each kind of member, where it stands in a longer text. */
  lemma WritesAt(t: Bytes, p: Bytes, name: string, text: Bytes, q: Bytes)
    requires t == p + Member(name, text) + q
    ensures Writes(t, name, text)
  {
    hide Writes, Member;
    WritesMember(name, text);
    WritesInside(Member(name, text), name, text, p, q);
  }

  lemma PartyWrites(a: Authorization)
    ensures Writes(Party(a), "scope", ScopeText(a.scope)) && Writes(Party(a), "kind", Quote(Latin(a.kind)))
    ensures Writes(Party(a), "issuer", Quote(Latin(a.issuer))) && Writes(Party(a), "audience", Quote(Latin(a.audience)))
    ensures Writes(Party(a), "binding_id", Quote(Latin(a.bindingID)))
    ensures a.function_.Some? ==> Writes(Party(a), "function", FunctionText(a.function_.value))
  {
    hide Writes, Quote, FunctionText, ScopeText, Member;
    var f := if a.function_.None? then [] else Member("function", FunctionText(a.function_.value));
    var s, k := Member("scope", ScopeText(a.scope)), Text("kind", a.kind);
    var i, u, b := Text("issuer", a.issuer), Text("audience", a.audience), Text("binding_id", a.bindingID);
    WritesAt(Party(a), f, "scope", ScopeText(a.scope), k + i + u + b);
    WritesAt(Party(a), f + s, "kind", Quote(Latin(a.kind)), i + u + b);
    WritesAt(Party(a), f + s + k, "issuer", Quote(Latin(a.issuer)), u + b);
    WritesAt(Party(a), f + s + k + i, "audience", Quote(Latin(a.audience)), b);
    WritesAt(Party(a), f + s + k + i + u, "binding_id", Quote(Latin(a.bindingID)), []);
    if a.function_.Some? {
      WritesAt(Party(a), [], "function", FunctionText(a.function_.value), s + k + i + u + b);
    }
  }

  lemma OperandsWrite(a: Authorization)
    ensures Writes(Operands(a), "manifest_digest", Quote(Latin(a.manifestDigest)))
    ensures Writes(Operands(a), "id", Quote(Latin(a.id)))
    ensures a.policyDigest != "" ==> Writes(Operands(a), "policy_digest", Quote(Latin(a.policyDigest)))
    ensures a.inputDigest != "" ==> Writes(Operands(a), "input_digest", Quote(Latin(a.inputDigest)))
    ensures a.nonce != "" ==> Writes(Operands(a), "nonce", Quote(Latin(a.nonce)))
    ensures a.principal != "" ==> Writes(Operands(a), "principal", Quote(Latin(a.principal)))
  {
    hide Writes, Quote, Member;
    var p, m := NonEmptyText("policy_digest", a.policyDigest), Text("manifest_digest", a.manifestDigest);
    var d, i := NonEmptyText("input_digest", a.inputDigest), Text("id", a.id);
    var n, r := NonEmptyText("nonce", a.nonce), NonEmptyText("principal", a.principal);
    WritesAt(Operands(a), p, "manifest_digest", Quote(Latin(a.manifestDigest)), d + i + n + r);
    WritesAt(Operands(a), p + m + d, "id", Quote(Latin(a.id)), n + r);
    if a.policyDigest != "" {
      WritesAt(Operands(a), [], "policy_digest", Quote(Latin(a.policyDigest)), m + d + i + n + r);
    }
    if a.inputDigest != "" {
      WritesAt(Operands(a), p + m, "input_digest", Quote(Latin(a.inputDigest)), i + n + r);
    }
    if a.nonce != "" {
      WritesAt(Operands(a), p + m + d + i, "nonce", Quote(Latin(a.nonce)), r);
    }
    if a.principal != "" {
      WritesAt(Operands(a), p + m + d + i + n, "principal", Quote(Latin(a.principal)), []);
    }
  }

  lemma TimesWrite(a: Authorization)
    ensures Writes(Times(a), "expires_at", Decimal(a.expiresAt)) && Writes(Times(a), "issued_at", Decimal(a.issuedAt))
    ensures Writes(Times(a), "protocol_version", Decimal(a.protocolVersion))
    ensures Writes(Times(a), "binding_revision", Decimal(a.bindingRevision))
  {
    hide Writes, Decimal, Member;
    var e, i := Number("expires_at", a.expiresAt), Number("issued_at", a.issuedAt);
    var p, b := Number("protocol_version", a.protocolVersion), Number("binding_revision", a.bindingRevision);
    WritesAt(Times(a), [], "expires_at", Decimal(a.expiresAt), i + p + b);
    WritesAt(Times(a), e, "issued_at", Decimal(a.issuedAt), p + b);
    WritesAt(Times(a), e + i, "protocol_version", Decimal(a.protocolVersion), b);
    WritesAt(Times(a), e + i + p, "binding_revision", Decimal(a.bindingRevision), []);
  }

  /** A text inside the braces, after the leading comma is dropped. */
  lemma WritesObject(m: Bytes, name: string, text: Bytes, p: Bytes, t: Bytes, q: Bytes)
    requires m != [] && m[0] == COMMA && m == p + t + q && Writes(t, name, text)
    ensures Writes(Object(m), name, text)
  {
    var field := [QUOTE] + Latin(name) + [QUOTE, COLON] + text;
    var x, y :| t == x + field + y;
    var u, v := p + x, y + q;
    assert m == u + field + v;
    assert u != [];
    assert Object(m) == ([123] + u[1..]) + field + (v + [125]);
  }

  /** Whatever a part of an authorization writes, the whole text writes. */
  lemma TextWrites(a: Authorization, name: string, text: Bytes)
    requires Writes(Party(a), name, text) || Writes(Operands(a), name, text) || Writes(Times(a), name, text)
      || Writes(NonEmptyList("resources", a.resources), name, text)
      || Writes(NonEmptyList("capabilities", a.capabilities), name, text)
      || Writes(NonEmptyRaw("input", a.input), name, text)
    ensures Writes(AuthorizationText(a), name, text)
  {
    hide Writes, Party, Operands, Times, NonEmptyList, NonEmptyRaw;
    var p, o, t := Party(a), Operands(a), Times(a);
    var r, c := NonEmptyList("resources", a.resources), NonEmptyList("capabilities", a.capabilities);
    var i := NonEmptyRaw("input", a.input);
    var m := p + o + r + c + i + t;
    PartyStarts(a);
    if Writes(p, name, text) {
      assert m == [] + p + (o + r + c + i + t);
      WritesObject(m, name, text, [], p, o + r + c + i + t);
    } else if Writes(o, name, text) {
      assert m == p + o + (r + c + i + t);
      WritesObject(m, name, text, p, o, r + c + i + t);
    } else if Writes(t, name, text) {
      assert m == (p + o + r + c + i) + t + [];
      WritesObject(m, name, text, p + o + r + c + i, t, []);
    } else if Writes(r, name, text) {
      assert m == (p + o) + r + (c + i + t);
      WritesObject(m, name, text, p + o, r, c + i + t);
    } else if Writes(c, name, text) {
      assert m == (p + o + r) + c + (i + t);
      WritesObject(m, name, text, p + o + r, c, i + t);
    } else {
      assert m == (p + o + r + c) + i + t;
      WritesObject(m, name, text, p + o + r + c, i, t);
    }
  }

  /** Every field that is not omitted appears in the text under its JSON name. */
  lemma FieldsWritten(a: Authorization)
    ensures var t := AuthorizationText(a);
      && Writes(t, "scope", ScopeText(a.scope)) && Writes(t, "kind", Quote(Latin(a.kind)))
      && Writes(t, "issuer", Quote(Latin(a.issuer))) && Writes(t, "audience", Quote(Latin(a.audience)))
      && Writes(t, "binding_id", Quote(Latin(a.bindingID))) && Writes(t, "id", Quote(Latin(a.id)))
      && Writes(t, "manifest_digest", Quote(Latin(a.manifestDigest)))
      && (a.function_.Some? ==> Writes(t, "function", FunctionText(a.function_.value)))
      && (a.policyDigest != "" ==> Writes(t, "policy_digest", Quote(Latin(a.policyDigest))))
      && (a.inputDigest != "" ==> Writes(t, "input_digest", Quote(Latin(a.inputDigest))))
      && (a.nonce != "" ==> Writes(t, "nonce", Quote(Latin(a.nonce))))
      && (a.principal != "" ==> Writes(t, "principal", Quote(Latin(a.principal))))
      && (a.resources != [] ==> Writes(t, "resources", Bracketed(a.resources)))
      && (a.capabilities != [] ==> Writes(t, "capabilities", Bracketed(a.capabilities)))
      && (a.input != [] ==> Writes(t, "input", a.input))
      && Writes(t, "expires_at", Decimal(a.expiresAt)) && Writes(t, "issued_at", Decimal(a.issuedAt))
      && Writes(t, "protocol_version", Decimal(a.protocolVersion))
      && Writes(t, "binding_revision", Decimal(a.bindingRevision))
  {
    hide Writes, AuthorizationText, Party, Operands, Times, Quote, Latin, Bracketed, ScopeText, FunctionText, Decimal,
         Member;
    PartyWrites(a);
    OperandsWrite(a);
    TimesWrite(a);
    TextWrites(a, "scope", ScopeText(a.scope));
    TextWrites(a, "kind", Quote(Latin(a.kind)));
    TextWrites(a, "issuer", Quote(Latin(a.issuer)));
    TextWrites(a, "audience", Quote(Latin(a.audience)));
    TextWrites(a, "binding_id", Quote(Latin(a.bindingID)));
    TextWrites(a, "id", Quote(Latin(a.id)));
    TextWrites(a, "manifest_digest", Quote(Latin(a.manifestDigest)));
    TextWrites(a, "expires_at", Decimal(a.expiresAt));
    TextWrites(a, "issued_at", Decimal(a.issuedAt));
    TextWrites(a, "protocol_version", Decimal(a.protocolVersion));
    TextWrites(a, "binding_revision", Decimal(a.bindingRevision));
    if a.function_.Some? { TextWrites(a, "function", FunctionText(a.function_.value)); }
    if a.policyDigest != "" { TextWrites(a, "policy_digest", Quote(Latin(a.policyDigest))); }
    if a.inputDigest != "" { TextWrites(a, "input_digest", Quote(Latin(a.inputDigest))); }
    if a.nonce != "" { TextWrites(a, "nonce", Quote(Latin(a.nonce))); }
    if a.principal != "" { TextWrites(a, "principal", Quote(Latin(a.principal))); }
    if a.resources != [] {
      WritesMember("resources", Bracketed(a.resources));
      TextWrites(a, "resources", Bracketed(a.resources));
    }
    if a.capabilities != [] {
      WritesMember("capabilities", Bracketed(a.capabilities));
      TextWrites(a, "capabilities", Bracketed(a.capabilities));
    }
    if a.input != [] {
      WritesMember("input", a.input);
      TextWrites(a, "input", a.input);
    }
  }

  // ---- the text of an authorization determines it ----

  /** What follows the principal, the resources and the capabilities. */
  function AfterCapabilities(a: Authorization): (r: Bytes)
    ensures |r| >= 3
  {
    NonEmptyRaw("input", a.input) + Times(a)
  }

  function AfterResources(a: Authorization): (r: Bytes)
    ensures |r| >= 3
  {
    NonEmptyList("capabilities", a.capabilities) + AfterCapabilities(a)
  }

  function AfterPrincipal(a: Authorization): (r: Bytes)
    ensures |r| >= 3
  {
    NonEmptyList("resources", a.resources) + AfterResources(a)
  }

  function AfterNonce(a: Authorization): (r: Bytes)
    ensures |r| >= 3
  {
    NonEmptyText("principal", a.principal) + AfterPrincipal(a)
  }

  function Initial(c: char): byte {
    c as int % 256
  }

  /** The first letter of the next member's name tells which it is. */
  lemma Initials(a: Authorization)
    ensures AfterCapabilities(a)[2] in {Initial('i'), Initial('e')}
    ensures AfterResources(a)[2] in {Initial('c'), Initial('i'), Initial('e')}
    ensures AfterPrincipal(a)[2] in {Initial('r'), Initial('c'), Initial('i'), Initial('e')}
    ensures AfterNonce(a)[2] in {Initial('p'), Initial('r'), Initial('c'), Initial('i'), Initial('e')}
  {
    hide Quote, Bracketed, Decimal;
    assert Times(a)[2] == Initial('e');
  }

  lemma LacksInitial(name: string, x: Bytes)
    requires name != "" && |x| >= 3 && x[2] != Initial(name[0])
    ensures Lacks(name, x)
  {
    assert Head(name)[2] == Latin(name)[0];
  }

  lemma PeelRaw(s: Bytes, t: Bytes)
    requires NonEmptyRaw("input", s) == NonEmptyRaw("input", t)
    ensures s == t
  {
    hide Head;
    if s != [] && t != [] {
      SamePrefix(Head("input"), s, t);
    }
  }

  lemma PeelRest(a: Authorization, b: Authorization)
    requires Readable(a) && Readable(b) && AfterNonce(a) == AfterNonce(b)
    ensures a.principal == b.principal && a.resources == b.resources && a.capabilities == b.capabilities
    ensures a.input == b.input && a.expiresAt == b.expiresAt && a.issuedAt == b.issuedAt
    ensures a.protocolVersion == b.protocolVersion && a.bindingRevision == b.bindingRevision
  {
    hide NonEmptyText, NonEmptyList, NonEmptyRaw, Times, Lacks, Printable, ReadableScope, ReadableFunction;
    Initials(a);
    Initials(b);
    LacksInitial("principal", AfterPrincipal(a));
    LacksInitial("principal", AfterPrincipal(b));
    PeelNonEmpty("principal", a.principal, b.principal, AfterPrincipal(a), AfterPrincipal(b));
    LacksInitial("resources", AfterResources(a));
    LacksInitial("resources", AfterResources(b));
    PeelList("resources", a.resources, b.resources, AfterResources(a), AfterResources(b));
    LacksInitial("capabilities", AfterCapabilities(a));
    LacksInitial("capabilities", AfterCapabilities(b));
    PeelList("capabilities", a.capabilities, b.capabilities, AfterCapabilities(a), AfterCapabilities(b));
    PeelTimes(a, b, NonEmptyRaw("input", a.input), NonEmptyRaw("input", b.input));
    PeelRaw(a.input, b.input);
  }

  lemma OperandsShape(a: Authorization)
    ensures Operands(a) + AfterPrincipal(a) ==
      NonEmptyText("policy_digest", a.policyDigest) + (Text("manifest_digest", a.manifestDigest)
      + (NonEmptyText("input_digest", a.inputDigest) + (Text("id", a.id)
      + (NonEmptyText("nonce", a.nonce) + AfterNonce(a)))))
  {
    hide Text, NonEmptyText, AfterPrincipal;
  }

  /** An optional member followed by a required one. */
  lemma PeelPair(name: string, s: string, t: string, next: string, u: string, v: string, x: Bytes, y: Bytes, k: nat)
    requires Printable(s) && Printable(t) && Printable(u) && Printable(v)
    requires k < |name| && k < |next| && name[k] as int % 256 != next[k] as int % 256
    requires NonEmptyText(name, s) + (Text(next, u) + x) == NonEmptyText(name, t) + (Text(next, v) + y)
    ensures s == t && u == v && x == y
  {
    hide NonEmptyText, Lacks, Printable, Quote, Head;
    OtherMember(name, next, Quote(Latin(u)), x, k);
    OtherMember(name, next, Quote(Latin(v)), y, k);
    PeelNonEmpty(name, s, t, Text(next, u) + x, Text(next, v) + y);
    PeelText(next, u, v, x, y);
  }

  lemma PeelOperands(a: Authorization, b: Authorization)
    requires Readable(a) && Readable(b) && Operands(a) + AfterPrincipal(a) == Operands(b) + AfterPrincipal(b)
    ensures a.policyDigest == b.policyDigest && a.manifestDigest == b.manifestDigest && a.inputDigest == b.inputDigest
    ensures a.id == b.id && a.nonce == b.nonce && AfterNonce(a) == AfterNonce(b)
  {
    hide NonEmptyText, Text, AfterPrincipal, AfterNonce, Operands, Lacks, Printable, ReadableScope, ReadableFunction;
    OperandsShape(a);
    OperandsShape(b);
    var x2, y2 := NonEmptyText("nonce", a.nonce) + AfterNonce(a), NonEmptyText("nonce", b.nonce) + AfterNonce(b);
    var x1 := NonEmptyText("input_digest", a.inputDigest) + (Text("id", a.id) + x2);
    var y1 := NonEmptyText("input_digest", b.inputDigest) + (Text("id", b.id) + y2);
    PeelPair("policy_digest", a.policyDigest, b.policyDigest,
             "manifest_digest", a.manifestDigest, b.manifestDigest, x1, y1, 0);
    PeelPair("input_digest", a.inputDigest, b.inputDigest, "id", a.id, b.id, x2, y2, 1);
    PeelNonce(a, b);
  }

  lemma PeelNonce(a: Authorization, b: Authorization)
    requires Printable(a.nonce) && Printable(b.nonce)
    requires NonEmptyText("nonce", a.nonce) + AfterNonce(a) == NonEmptyText("nonce", b.nonce) + AfterNonce(b)
    ensures a.nonce == b.nonce && AfterNonce(a) == AfterNonce(b)
  {
    hide NonEmptyText, AfterPrincipal, AfterNonce, AfterResources, AfterCapabilities, Lacks, Printable;
    Initials(a);
    Initials(b);
    LacksInitial("nonce", AfterNonce(a));
    LacksInitial("nonce", AfterNonce(b));
    PeelNonEmpty("nonce", a.nonce, b.nonce, AfterNonce(a), AfterNonce(b));
  }

  function FunctionMember(f: Option<Function>): Bytes {
    if f.None? then [] else Member("function", FunctionText(f.value))
  }

  lemma PeelFunctionMember(f: Option<Function>, g: Option<Function>, x: Bytes, y: Bytes)
    requires (f.Some? ==> ReadableFunction(f.value)) && (g.Some? ==> ReadableFunction(g.value))
    requires FunctionMember(f) + x == FunctionMember(g) + y && Lacks("function", x) && Lacks("function", y)
    ensures f == g && x == y
  {
    hide FunctionText, Lacks, Head;
    assert [] + x == x && [] + y == y;
    if f.Some? {
      Begins("function", FunctionText(f.value), x);
    }
    if g.Some? {
      Begins("function", FunctionText(g.value), y);
    }
    if f.Some? && g.Some? {
      PeelMember("function", FunctionText(f.value), FunctionText(g.value), x, y);
      PeelFunction(f.value, g.value, x, y);
    }
  }

  function Parties(a: Authorization, x: Bytes): Bytes {
    Text("kind", a.kind) + (Text("issuer", a.issuer)
    + (Text("audience", a.audience) + (Text("binding_id", a.bindingID) + x)))
  }

  lemma PartyShape(a: Authorization, x: Bytes)
    ensures Party(a) + x == FunctionMember(a.function_) + (Member("scope", ScopeText(a.scope)) + Parties(a, x))
  {
    hide Text, FunctionText, ScopeText, Member;
  }

  lemma PeelParties(a: Authorization, b: Authorization, x: Bytes, y: Bytes)
    requires Readable(a) && Readable(b) && Parties(a, x) == Parties(b, y)
    ensures a.kind == b.kind && a.issuer == b.issuer && a.audience == b.audience && a.bindingID == b.bindingID && x == y
  {
    hide Text, Printable, ReadableScope, ReadableFunction;
    var a3, b3 := Text("binding_id", a.bindingID) + x, Text("binding_id", b.bindingID) + y;
    var a2, b2 := Text("audience", a.audience) + a3, Text("audience", b.audience) + b3;
    var a1, b1 := Text("issuer", a.issuer) + a2, Text("issuer", b.issuer) + b2;
    PeelText("kind", a.kind, b.kind, a1, b1);
    PeelText("issuer", a.issuer, b.issuer, a2, b2);
    PeelText("audience", a.audience, b.audience, a3, b3);
    PeelText("binding_id", a.bindingID, b.bindingID, x, y);
  }

  lemma PeelParty(a: Authorization, b: Authorization, x: Bytes, y: Bytes)
    requires Readable(a) && Readable(b) && Party(a) + x == Party(b) + y
    ensures a.function_ == b.function_ && a.scope == b.scope && a.kind == b.kind && a.issuer == b.issuer
    ensures a.audience == b.audience && a.bindingID == b.bindingID && x == y
  {
    hide Party, Parties, FunctionText, ScopeText, Member, Lacks, Printable, ReadableScope, ReadableFunction;
    var a1, b1 := Parties(a, x), Parties(b, y);
    var a0, b0 := Member("scope", ScopeText(a.scope)) + a1, Member("scope", ScopeText(b.scope)) + b1;
    PartyShape(a, x);
    PartyShape(b, y);
    OtherMember("function", "scope", ScopeText(a.scope), a1, 0);
    OtherMember("function", "scope", ScopeText(b.scope), b1, 0);
    PeelFunctionMember(a.function_, b.function_, a0, b0);
    PeelMember("scope", ScopeText(a.scope), ScopeText(b.scope), a1, b1);
    PeelScope(a.scope, b.scope, a1, b1);
    PeelParties(a, b, x, y);
  }

  lemma PartyStarts(a: Authorization)
    ensures Party(a) != [] && Party(a)[0] == COMMA
  {
    hide Text, FunctionText, ScopeText;
  }

  lemma AuthorizationShape(a: Authorization)
    ensures AuthorizationText(a) + [] == [123] + (Party(a) + (Operands(a) + AfterPrincipal(a)))[1..] + [125] + []
  {
    hide Party, Operands, NonEmptyList, NonEmptyRaw, Times;
    PartyStarts(a);
    assert Party(a) + Operands(a)
      + NonEmptyList("resources", a.resources) + NonEmptyList("capabilities", a.capabilities)
      + NonEmptyRaw("input", a.input) + Times(a) == Party(a) + (Operands(a) + AfterPrincipal(a));
  }

  /** Equal texts are texts of equal authorizations. */
  lemma TextDetermines(a: Authorization, b: Authorization)
    requires Readable(a) && Readable(b) && AuthorizationText(a) == AuthorizationText(b)
    ensures a == b
  {
    hide AuthorizationText, Party, Operands, AfterPrincipal, AfterNonce, Readable;
    var a1, b1 := Operands(a) + AfterPrincipal(a), Operands(b) + AfterPrincipal(b);
    AuthorizationShape(a);
    AuthorizationShape(b);
    PartyStarts(a);
    PartyStarts(b);
    Unbracket(123, Party(a) + a1, Party(b) + b1, 125, [], []);
    SameSuffix(Party(a) + a1, Party(b) + b1, [125]);
    PeelParty(a, b, a1, b1);
    PeelOperands(a, b);
    PeelRest(a, b);
  }

  lemma SameSuffix(x: Bytes, y: Bytes, p: Bytes)
    requires x + (p + []) == y + (p + [])
    ensures x == y
  {
    assert x == (x + (p + []))[..|x + (p + [])| - |p|] && y == (y + (p + []))[..|y + (p + [])| - |p|];
  }

  lemma Marshalled(w: World, a: Authorization)
    requires Lawful(w) && Readable(a) && (a.input == [] || w.compact(a.input).Some?)
    ensures w.marshalAuthorization(a) == AuthorizationText(a.(input := Canonical(w, a.input)))
  {
    hide Proper, Canonical, AuthorizationText, ResultText, Readable, IsDigest;
  }

  lemma SemanticTextIs(w: World, a: Authorization)
    requires Lawful(w) && InputBound(w, a) && Readable(a)
    ensures SemanticText(w, a) == AuthorizationText(a.(issuedAt := 0, expiresAt := 0, input := Canonical(w, a.input)))
  {
    hide Lawful, Canonical, AuthorizationText, Printable, ReadableScope, ReadableFunction;
    Marshalled(w, Semantic(a));
  }

  /** Two grants have equal semantic digests if and only if they are equal in
      every field but the issue and expiry time, down to the input bytes, unless
      the two semantic texts or the two inputs collide. The JSON encoder drops
      the spelling of the input, so this needs the input digest. */
  lemma SemanticBinding(w: World, a: Authorization, b: Authorization)
    requires Lawful(w) && InputBound(w, a) && InputBound(w, b) && Readable(a) && Readable(b)
    requires w.digest(SemanticText(w, a)) == w.digest(SemanticText(w, b)) ==> SemanticText(w, a) == SemanticText(w, b)
    requires w.digest(a.input) == w.digest(b.input) ==> a.input == b.input
    ensures SemanticDigest(w, a) == SemanticDigest(w, b) <==>
      a == b.(issuedAt := a.issuedAt, expiresAt := a.expiresAt)
  {
    hide Lawful, Canonical, AuthorizationText, Printable, ReadableScope, ReadableFunction, SemanticText;
    SemanticTextIs(w, a);
    SemanticTextIs(w, b);
    if SemanticDigest(w, a) == SemanticDigest(w, b) {
      var x := a.(issuedAt := 0, expiresAt := 0, input := Canonical(w, a.input));
      var y := b.(issuedAt := 0, expiresAt := 0, input := Canonical(w, b.input));
      TextDetermines(x, y);
      assert x.inputDigest == a.inputDigest && y.inputDigest == b.inputDigest;
      assert a == x.(input := a.input, issuedAt := a.issuedAt, expiresAt := a.expiresAt);
      assert b == y.(input := b.input, issuedAt := b.issuedAt, expiresAt := b.expiresAt);
    }
  }

  // ---- the text of a result determines it ----

  function Counters(r: Result): (t: Bytes)
    ensures |t| >= 3
  {
    Number("protocol_version", r.protocolVersion) + Number("binding_revision", r.bindingRevision)
    + Number("completed_at", r.completedAt)
  }

  function AfterError(r: Result): (t: Bytes)
    ensures |t| >= 3
  {
    NonEmptyRaw("output", r.output) + Counters(r)
  }

  function AfterResultNonce(r: Result): (t: Bytes)
    ensures |t| >= 3
  {
    NonEmptyText("error_code", r.errorCode) + AfterError(r)
  }

  lemma ResultInitials(r: Result)
    ensures AfterError(r)[2] in {Initial('o'), Initial('p')}
    ensures AfterResultNonce(r)[2] in {Initial('e'), Initial('o'), Initial('p')}
  {
    hide Quote, Decimal;
    assert Counters(r)[2] == Initial('p');
  }

  lemma PeelCounters(r: Result, s: Result)
    requires AfterError(r) == AfterError(s)
    ensures r.output == s.output && r.protocolVersion == s.protocolVersion
    ensures r.bindingRevision == s.bindingRevision && r.completedAt == s.completedAt
  {
    hide Number;
    var x, y := NonEmptyRaw("output", r.output), NonEmptyRaw("output", s.output);
    var x1, y1 := x + Number("protocol_version", r.protocolVersion), y + Number("protocol_version", s.protocolVersion);
    var x2 := x1 + Number("binding_revision", r.bindingRevision);
    var y2 := y1 + Number("binding_revision", s.bindingRevision);
    assert AfterError(r) == x2 + Number("completed_at", r.completedAt);
    assert AfterError(s) == y2 + Number("completed_at", s.completedAt);
    PeelNumber("completed_at", r.completedAt, s.completedAt, x2, y2);
    PeelNumber("binding_revision", r.bindingRevision, s.bindingRevision, x1, y1);
    PeelNumber("protocol_version", r.protocolVersion, s.protocolVersion, x, y);
    if r.output != [] && s.output != [] {
      SamePrefix(Head("output"), r.output, s.output);
    }
  }

  lemma PeelOutcome(r: Result, s: Result)
    requires ReadableResult(r) && ReadableResult(s)
    requires NonEmptyText("nonce", r.nonce) + AfterResultNonce(r)
          == NonEmptyText("nonce", s.nonce) + AfterResultNonce(s)
    ensures r.nonce == s.nonce && r.errorCode == s.errorCode && AfterError(r) == AfterError(s)
  {
    hide NonEmptyText, AfterError, Lacks, Printable;
    ResultInitials(r);
    ResultInitials(s);
    LacksInitial("nonce", AfterResultNonce(r));
    LacksInitial("nonce", AfterResultNonce(s));
    PeelNonEmpty("nonce", r.nonce, s.nonce, AfterResultNonce(r), AfterResultNonce(s));
    LacksInitial("error_code", AfterError(r));
    LacksInitial("error_code", AfterError(s));
    PeelNonEmpty("error_code", r.errorCode, s.errorCode, AfterError(r), AfterError(s));
  }

  function ResultMembers(r: Result): (t: Bytes)
    ensures t != [] && t[0] == COMMA
  {
    Four("id", "binding_id", "manifest_digest", "authorization_digest",
         [r.id, r.bindingID, r.manifestDigest, r.authorizationDigest])
    + (Text("kind", r.kind) + (NonEmptyText("nonce", r.nonce) + AfterResultNonce(r)))
  }

  lemma ResultShape(r: Result)
    ensures ResultText(r) + [] == [123] + ResultMembers(r)[1..] + [125] + []
  {
    hide Text, NonEmptyText, NonEmptyRaw, Number;
    var m := Text("id", r.id) + Text("binding_id", r.bindingID) + Text("manifest_digest", r.manifestDigest)
      + Text("authorization_digest", r.authorizationDigest) + Text("kind", r.kind)
      + NonEmptyText("nonce", r.nonce) + NonEmptyText("error_code", r.errorCode)
      + NonEmptyRaw("output", r.output)
      + Number("protocol_version", r.protocolVersion) + Number("binding_revision", r.bindingRevision)
      + Number("completed_at", r.completedAt);
    assert m == ResultMembers(r);
    assert ResultText(r) == [123] + m[1..] + [125];
  }

  lemma ResultTextDetermines(r: Result, s: Result)
    requires ReadableResult(r) && ReadableResult(s) && ResultText(r) == ResultText(s)
    ensures r == s
  {
    hide ResultText, Text, NonEmptyText, Four, Printable, AfterResultNonce, AfterError;
    ResultShape(r);
    ResultShape(s);
    Unbracket(123, ResultMembers(r), ResultMembers(s), 125, [], []);
    SameSuffix(ResultMembers(r), ResultMembers(s), [125]);
    var a := [r.id, r.bindingID, r.manifestDigest, r.authorizationDigest];
    var b := [s.id, s.bindingID, s.manifestDigest, s.authorizationDigest];
    var x1 := NonEmptyText("nonce", r.nonce) + AfterResultNonce(r);
    var y1 := NonEmptyText("nonce", s.nonce) + AfterResultNonce(s);
    PeelFour("id", "binding_id", "manifest_digest", "authorization_digest", a, b,
             Text("kind", r.kind) + x1, Text("kind", s.kind) + y1);
    assert a[0] == b[0] && a[1] == b[1] && a[2] == b[2] && a[3] == b[3];
    PeelText("kind", r.kind, s.kind, x1, y1);
    PeelOutcome(r, s);
    PeelCounters(r, s);
  }

  // ---- the assumptions can be met ----

  /** The result, or the authorization, a text is the text of. */
  ghost function ResultOf(x: Bytes): Option<Result> {
    if exists r :: ReadableResult(r) && ResultText(r) == x
    then var r :| ReadableResult(r) && ResultText(r) == x; Some(r)
    else None
  }

  lemma ResultOfText(r: Result)
    requires ReadableResult(r)
    ensures ResultOf(ResultText(r)) == Some(r)
  {
    hide ReadableResult, ResultText;
    var s := ResultOf(ResultText(r)).value;
    ResultTextDetermines(r, s);
  }

  ghost function AuthorizationOf(x: Bytes): Option<Authorization> {
    if exists a :: Readable(a) && AuthorizationText(a) == x
    then var a :| Readable(a) && AuthorizationText(a) == x; Some(a)
    else None
  }

  lemma AuthorizationOfText(a: Authorization)
    requires Readable(a)
    ensures AuthorizationOf(AuthorizationText(a)) == Some(a)
  {
    hide Readable, AuthorizationText;
    var b := AuthorizationOf(AuthorizationText(a)).value;
    TextDetermines(a, b);
  }

  /** An encoder and a decoder for a given hash and compaction. */
  ghost function Codec(digest: Bytes -> string, compact: Bytes -> Option<Bytes>): World {
    var bare := World(digest, compact, _ => [], _ => None, _ => [], _ => None);
    bare.(marshalAuthorization := (a: Authorization) => AuthorizationText(a.(input := Canonical(bare, a.input))),
          parseAuthorization := (x: Bytes) => AuthorizationOf(x),
          marshalResult := (r: Result) => ResultText(r),
          parseResult := (x: Bytes) => if ResultOf(x).Some? then ReadBack(bare, ResultOf(x).value) else None)
  }

  /** Every assumption can be met at once, whatever the hash and whatever the
      compaction refuses: distinct results have distinct texts, so a decoder can
      tell them apart. */
  lemma LawfulIsPossible(digest: Bytes -> string, compact: Bytes -> Option<Bytes>)
    requires forall x: Bytes :: IsDigest(digest(x))
    requires forall x: Bytes :: compact(x).Some? ==> compact(x).value != [] && compact(compact(x).value) == compact(x)
    ensures Lawful(Codec(digest, compact))
  {
    hide AuthorizationText, ResultText, Readable, ReadableResult, ResultOf, AuthorizationOf, IsDigest;
    var w := Codec(digest, compact);
    forall r: Result | Proper(w, r)
      ensures w.marshalResult(r) == ResultText(r) && w.parseResult(ResultText(r)) == ReadBack(w, r)
    {
      ResultOfText(r);
    }
  }
}
