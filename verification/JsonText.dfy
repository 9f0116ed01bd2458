/** The texts `encoding/json` writes for the protocol's messages, byte by byte:
    quoted strings with HTML-safe escapes, decimal integers, and objects whose
    members appear in declaration order. */
module JsonText {
  import opened Words
  import opened Protocol
  import B = Base64Url

  const QUOTE: byte := 34
  const BACKSLASH: byte := 92
  const COMMA: byte := 44
  const COLON: byte := 58

  /** The bytes of an ASCII string. */
  function Latin(s: string): (r: Bytes)
    ensures |r| == |s|
  {
    seq(|s|, i requires 0 <= i < |s| => s[i] as int % 256)
  }

  function HexDigit(n: int): byte
    requires 0 <= n < 16
  {
    if n < 10 then 48 + n else 87 + n
  }

  /** How one byte of printable ASCII appears inside a quoted string: a quote or
      a backslash gains a backslash; `<`, `>` and `&` become six characters. */
  function Escape(c: byte): (r: Bytes)
    ensures 1 <= |r| <= 6
  {
    if c == QUOTE || c == BACKSLASH then [BACKSLASH, c]
    else if c == 60 || c == 62 || c == 38 then [BACKSLASH, 117, 48, 48, HexDigit(c / 16), HexDigit(c % 16)]
    else [c]
  }

  function Escaped(s: Bytes): Bytes {
    if s == [] then [] else Escape(s[0]) + Escaped(s[1..])
  }

  function Quote(s: Bytes): Bytes {
    [QUOTE] + Escaped(s) + [QUOTE]
  }

  // ---- reading a quoted string back ----

  function HexValue(c: byte): Option<int> {
    if 48 <= c <= 57 then Some(c - 48) else if 97 <= c <= 102 then Some(c - 87) else None
  }

  /** The rest of a string literal after its opening quote: its bytes and what
      follows the closing quote. Only the escapes the encoder writes are read. */
  function ReadString(t: Bytes): Option<(Bytes, Bytes)>
    decreases |t|
  {
    if t == [] then None
    else if t[0] == QUOTE then Some(([], t[1..]))
    else if t[0] != BACKSLASH then Then(t[0], ReadString(t[1..]))
    else if |t| < 2 then None
    else if t[1] == QUOTE || t[1] == BACKSLASH then Then(t[1], ReadString(t[2..]))
    else if t[1] != 117 || |t| < 6 || t[2] != 48 || t[3] != 48 then None
    else
      var high, low := HexValue(t[4]), HexValue(t[5]);
      if high.None? || low.None? then None else Then(high.value * 16 + low.value, ReadString(t[6..]))
  }

  function Then(c: byte, rest: Option<(Bytes, Bytes)>): Option<(Bytes, Bytes)> {
    if rest.None? then None else Some(([c] + rest.value.0, rest.value.1))
  }

  /** Reading a quoted string gives the string back and stops at its end. */
  lemma {:induction false} QuoteReadsBack(s: Bytes, rest: Bytes)
    ensures ReadString(Escaped(s) + [QUOTE] + rest) == Some((s, rest))
    decreases |s|
  {
    if s == [] {
      assert Escaped(s) + [QUOTE] + rest == [QUOTE] + rest;
    } else {
      var tail := Escaped(s[1..]) + [QUOTE] + rest;
      QuoteReadsBack(s[1..], rest);
      assert Escaped(s) + [QUOTE] + rest == Escape(s[0]) + tail;
      ReadEscape(s[0], tail);
      assert s == [s[0]] + s[1..];
    }
  }

  lemma ReadEscape(c: byte, tail: Bytes)
    ensures ReadString(Escape(c) + tail) == Then(c, ReadString(tail))
  {
    var t := Escape(c) + tail;
    assert t[|Escape(c)|..] == tail;
  }

  // ---- lengths ----

  lemma {:induction false} QuoteGrowth(s: Bytes)
    ensures |s| + 2 <= |Quote(s)| <= 6 * |s| + 2
  {
    if s != [] {
      QuoteGrowth(s[1..]);
    }
  }

  /** Base64url text needs no escape. */
  lemma {:induction false} QuotePlain(s: Bytes)
    requires B.AllLetters(s)
    ensures |Quote(s)| == |s| + 2
  {
    if s != [] {
      assert B.InAlphabet(s[0]);
      QuotePlain(s[1..]);
    }
  }

  function Digits(n: nat): Bytes {
    if n < 10 then [48 + n] else Digits(n / 10) + [48 + n % 10]
  }

  function Decimal(n: int): Bytes {
    if n < 0 then [45] + Digits(-n) else Digits(n)
  }

  function Pow10(k: nat): nat {
    if k == 0 then 1 else 10 * Pow10(k - 1)
  }

  lemma {:induction false} DigitsFit(n: nat, k: nat)
    requires k >= 1 && n < Pow10(k)
    ensures 1 <= |Digits(n)| <= k
  {
    if n >= 10 {
      DigitsFit(n / 10, k - 1);
    }
  }

  lemma DecimalFits(n: int64)
    ensures 1 <= |Decimal(n)| <= 20
  {
    assert Pow10(5) == 100_000;
    assert Pow10(10) == 10_000_000_000;
    assert Pow10(15) == 1_000_000_000_000_000;
    assert Pow10(19) == 10_000_000_000_000_000_000;
    var m: int := n;
    DigitsFit(if m < 0 then -m else m, 19);
  }

  // ---- objects ----

  /** A member's name, with the comma that separates it from the one before. */
  function Head(name: string): (r: Bytes)
    ensures |r| == |name| + 4
  {
    [COMMA, QUOTE] + Latin(name) + [QUOTE, COLON]
  }

  function Member(name: string, text: Bytes): (r: Bytes)
    ensures |r| == |name| + |text| + 4
  {
    Head(name) + text
  }

  function Text(name: string, value: string): Bytes {
    Member(name, Quote(Latin(value)))
  }

  /** A member that `omitempty` leaves out. */
  function NonEmptyText(name: string, value: string): Bytes {
    if value == "" then [] else Text(name, value)
  }

  function Number(name: string, value: int64): Bytes {
    Member(name, Decimal(value))
  }

  function Object(members: Bytes): (r: Bytes)
    requires members != []
    ensures |r| == |members| + 1
  {
    [123] + members[1..] + [125]
  }

  function Elements(items: seq<string>): Bytes {
    if items == [] then [] else [COMMA] + Quote(Latin(items[0])) + Elements(items[1..])
  }

  function NonEmptyList(name: string, items: seq<string>): Bytes {
    if items == [] then [] else Member(name, Bracketed(items))
  }

  function Bracketed(items: seq<string>): Bytes {
    if items == [] then [91, 93] else [91] + Elements(items)[1..] + [93]
  }

  function NonEmptyRaw(name: string, raw: Bytes): Bytes {
    if raw == [] then [] else Member(name, raw)
  }

  function ScopeText(s: Scope): Bytes {
    Object(Text("tenant_id", s.tenantID) + Text("application_id", s.applicationID)
           + Text("environment_id", s.environmentID) + Text("owner_resource", s.ownerResource))
  }

  function FunctionText(f: Function): Bytes {
    Object(Text("name", f.name) + Text("version", f.version)
           + Text("input_schema_digest", f.inputSchema) + Text("output_schema_digest", f.outputSchema))
  }

  function Party(a: Authorization): Bytes {
    (if a.function_.None? then [] else Member("function", FunctionText(a.function_.value)))
    + Member("scope", ScopeText(a.scope))
    + Text("kind", a.kind) + Text("issuer", a.issuer) + Text("audience", a.audience) + Text("binding_id", a.bindingID)
  }

  function Operands(a: Authorization): Bytes {
    NonEmptyText("policy_digest", a.policyDigest) + Text("manifest_digest", a.manifestDigest)
    + NonEmptyText("input_digest", a.inputDigest) + Text("id", a.id)
    + NonEmptyText("nonce", a.nonce) + NonEmptyText("principal", a.principal)
  }

  function Times(a: Authorization): Bytes {
    Number("expires_at", a.expiresAt) + Number("issued_at", a.issuedAt)
    + Number("protocol_version", a.protocolVersion) + Number("binding_revision", a.bindingRevision)
  }

  /** An authorization whose input is already canonical. */
  function AuthorizationText(a: Authorization): Bytes {
    Object(Party(a) + Operands(a)
           + NonEmptyList("resources", a.resources) + NonEmptyList("capabilities", a.capabilities)
           + NonEmptyRaw("input", a.input) + Times(a))
  }

  /** A result whose output is already canonical. */
  function ResultText(r: Result): Bytes {
    Object(Text("id", r.id) + Text("binding_id", r.bindingID) + Text("manifest_digest", r.manifestDigest)
           + Text("authorization_digest", r.authorizationDigest) + Text("kind", r.kind)
           + NonEmptyText("nonce", r.nonce) + NonEmptyText("error_code", r.errorCode)
           + NonEmptyRaw("output", r.output)
           + Number("protocol_version", r.protocolVersion) + Number("binding_revision", r.bindingRevision)
           + Number("completed_at", r.completedAt))
  }

  datatype SignedMessage = SignedMessage(keyID: string, payload: Bytes, signature: Bytes)

  function SignedText(m: SignedMessage): Bytes {
    Object(Text("key_id", m.keyID) + Member("payload", Quote(m.payload)) + Member("signature", Quote(m.signature)))
  }

  function ValidationText(m: SignedMessage): Bytes {
    Object(Member("authorization", SignedText(m)))
  }

  function ResourceText(m: SignedMessage, resource: string, slot: string, version: int64, useCustody: bool): Bytes {
    Object(Member("authorization", SignedText(m)) + Text("resource", resource) + Text("slot", slot)
           + Number("payload_version", version) + if useCustody then Member("use_custody", Latin("true")) else [])
  }
}
