/** Unpadded URL-safe base64 (sections 5 and 3.5 of RFC 4648) as Go's
    `RawURLEncoding` reads and writes it, and the three places that insist on
    the canonical spelling. Text is a string of ASCII codes. */
module Base64Url {
  import opened Words

  type sextet = n: int | 0 <= n < 64

  const CR: byte := 13
  const LF: byte := 10
  const PAD: byte := 61

  /** `A-Z`, `a-z`, `0-9`, `-`, `_`. */
  function Letter(n: sextet): (c: byte)
    ensures InAlphabet(c) && Digit(c) == n
  {
    if n < 26 then n + 65 else if n < 52 then n + 71 else if n < 62 then n - 4 else if n == 62 then 45 else 95
  }

  predicate InAlphabet(c: byte) {
    65 <= c <= 90 || 97 <= c <= 122 || 48 <= c <= 57 || c == 45 || c == 95
  }

  function Digit(c: byte): (n: sextet)
    requires InAlphabet(c)
  {
    if c == 45 then 62 else if c == 95 then 63 else if c >= 97 then c - 71 else if c >= 65 then c - 65 else c + 4
  }

  lemma LetterOfDigit(c: byte)
    requires InAlphabet(c)
    ensures Letter(Digit(c)) == c
  {
  }

  // ---- sextets ----

  function Sextets(b: Bytes): seq<sextet> {
    if |b| == 0 then []
    else if |b| == 1 then [b[0] / 4, b[0] % 4 * 16]
    else if |b| == 2 then [b[0] / 4, b[0] % 4 * 16 + b[1] / 16, b[1] % 16 * 4]
    else [b[0] / 4, b[0] % 4 * 16 + b[1] / 16, b[1] % 16 * 4 + b[2] / 64, b[2] % 64] + Sextets(b[3..])
  }

  /** The bytes a run of sextets spells. Strict decoding refuses left-over bits
      that are not zero. */
  function Unpack(strict: bool, d: seq<sextet>): Option<Bytes> {
    if |d| == 0 then Some([])
    else if |d| == 1 then None
    else if |d| == 2 then
      if strict && d[1] % 16 != 0 then None else Some([First(d[0], d[1])])
    else if |d| == 3 then
      if strict && d[2] % 4 != 0 then None else Some([First(d[0], d[1]), Second(d[1], d[2])])
    else
      var rest := Unpack(strict, d[4..]);
      if rest.None? then None
      else Some([First(d[0], d[1]), Second(d[1], d[2]), Third(d[2], d[3])] + rest.value)
  }

  function First(x: sextet, y: sextet): byte {
    var a: int, b: int := x, y;
    a * 4 + b / 16
  }

  function Second(x: sextet, y: sextet): byte {
    var a: int, b: int := x, y;
    a % 16 * 16 + b / 4
  }

  function Third(x: sextet, y: sextet): byte {
    var a: int, b: int := x, y;
    a % 4 * 64 + b
  }

  lemma Regroup(x: byte, y: byte, z: byte)
    ensures First(x / 4, x % 4 * 16) == x && First(x / 4, x % 4 * 16 + y / 16) == x
    ensures Second(x % 4 * 16 + y / 16, y % 16 * 4) == y
    ensures Second(x % 4 * 16 + y / 16, y % 16 * 4 + z / 64) == y
    ensures Third(y % 16 * 4 + z / 64, z % 64) == z
    ensures x % 4 * 16 % 16 == 0 && y % 16 * 4 % 4 == 0
  {
    var a: int, b: int, c: int := x, y, z;
    assert a == a / 4 * 4 + a % 4 && (a % 4 * 16 + b / 16) / 16 == a % 4;
    assert b == b / 16 * 16 + b % 16 && (a % 4 * 16 + b / 16) % 16 == b / 16;
    assert (b % 16 * 4 + c / 64) / 4 == b % 16 && (b % 16 * 4 + c / 64) % 4 == c / 64;
  }

  lemma Ungroup(w: sextet, x: sextet, y: sextet, z: sextet)
    ensures First(w, x) / 4 == w && First(w, x) % 4 * 16 + Second(x, y) / 16 == x
    ensures Second(x, y) % 16 * 4 + Third(y, z) / 64 == y && Third(y, z) % 64 == z
    ensures x % 16 == 0 ==> First(w, x) % 4 * 16 == x
    ensures y % 4 == 0 ==> Second(x, y) % 16 * 4 == y
  {
    var a: int, b: int, c: int, d: int := w, x, y, z;
    assert b == b / 16 * 16 + b % 16 && (a * 4 + b / 16) / 4 == a && (a * 4 + b / 16) % 4 == b / 16;
    assert c == c / 4 * 4 + c % 4 && (b % 16 * 16 + c / 4) / 16 == b % 16 && (b % 16 * 16 + c / 4) % 16 == c / 4;
  }

  lemma {:induction false} UnpackSextets(strict: bool, b: Bytes)
    ensures Unpack(strict, Sextets(b)) == Some(b)
    decreases |b|
  {
    hide First, Second, Third;
    if |b| >= 1 {
      Regroup(b[0], if |b| > 1 then b[1] else 0, if |b| > 2 then b[2] else 0);
    }
    if |b| == 0 {
      assert b == [];
    } else if |b| == 1 {
      assert b == [b[0]];
    } else if |b| == 2 {
      assert b == [b[0], b[1]];
    } else {
      UnpackSextets(strict, b[3..]);
      assert Sextets(b)[4..] == Sextets(b[3..]);
      assert b == [b[0], b[1], b[2]] + b[3..];
    }
  }

  lemma {:induction false} SextetsUnpack(d: seq<sextet>)
    requires Unpack(true, d).Some?
    ensures Sextets(Unpack(true, d).value) == d
    decreases |d|
  {
    hide First, Second, Third;
    if |d| >= 2 {
      Ungroup(d[0], d[1], if |d| > 2 then d[2] else 0, if |d| > 3 then d[3] else 0);
    }
    if |d| >= 4 {
      SextetsUnpack(d[4..]);
      var b := Unpack(true, d).value;
      assert b[3..] == Unpack(true, d[4..]).value;
      assert d == [d[0], d[1], d[2], d[3]] + d[4..];
    }
  }

  // ---- text ----

  function Spell(d: seq<sextet>): (r: Bytes)
    ensures |r| == |d| && forall i :: 0 <= i < |d| ==> r[i] == Letter(d[i])
  {
    seq(|d|, i requires 0 <= i < |d| => Letter(d[i]))
  }

  /** `RawURLEncoding.EncodeToString`. */
  function Encode(b: Bytes): Bytes {
    Spell(Sextets(b))
  }

  /** `base64.RawURLEncoding.EncodedLen`. */
  function EncodedLength(n: nat): nat {
    n / 3 * 4 + (n % 3 * 8 + 5) / 6
  }

  lemma {:induction false} EncodedLengthIs(b: Bytes)
    ensures |Encode(b)| == EncodedLength(|b|)
    decreases |b|
  {
    if |b| >= 3 {
      EncodedLengthIs(b[3..]);
      assert |b| / 3 == |b[3..]| / 3 + 1 && |b| % 3 == |b[3..]| % 3;
    }
  }

  lemma LengthMonotone(m: nat, n: nat)
    requires m <= n
    ensures EncodedLength(m) <= EncodedLength(n)
  {
    var a, b := m / 3, n / 3;
    assert m == a * 3 + m % 3 && n == b * 3 + n % 3;
  }

  predicate AllLetters(s: Bytes) {
    forall i :: 0 <= i < |s| ==> InAlphabet(s[i])
  }

  function Digits(s: Bytes): (d: seq<sextet>)
    requires AllLetters(s)
    ensures |d| == |s| && forall i :: 0 <= i < |d| ==> d[i] == Digit(s[i])
  {
    seq(|s|, i requires 0 <= i < |s| => Digit(s[i]))
  }

  /** Go's decoders skip carriage returns and line feeds anywhere. */
  function Unbroken(s: Bytes): Bytes {
    if s == [] then []
    else if s[0] == CR || s[0] == LF then Unbroken(s[1..])
    else [s[0]] + Unbroken(s[1..])
  }

  /** `RawURLEncoding.DecodeString`, plain or `Strict()`. */
  function Decode(strict: bool, s: Bytes): Option<Bytes> {
    var t := Unbroken(s);
    if AllLetters(t) then Unpack(strict, Digits(t)) else None
  }

  lemma {:induction false} UnbrokenLetters(s: Bytes)
    requires AllLetters(s)
    ensures Unbroken(s) == s
  {
    if s != [] {
      assert s[0] != CR && s[0] != LF;
      UnbrokenLetters(s[1..]);
      assert s == [s[0]] + s[1..];
    }
  }

  lemma DigitsOfSpell(d: seq<sextet>)
    ensures AllLetters(Spell(d)) && Digits(Spell(d)) == d
  {
  }

  lemma SpellOfDigits(s: Bytes)
    requires AllLetters(s)
    ensures Spell(Digits(s)) == s
  {
    forall i | 0 <= i < |s| ensures Spell(Digits(s))[i] == s[i] {
      LetterOfDigit(s[i]);
    }
  }

  /** Decoding what was encoded gives the bytes back, strictly or not. */
  lemma RoundTrip(strict: bool, b: Bytes)
    ensures Decode(strict, Encode(b)) == Some(b) && AllLetters(Encode(b))
  {
    hide Unpack, Sextets, Unbroken;
    DigitsOfSpell(Sextets(b));
    UnbrokenLetters(Encode(b));
    UnpackSextets(strict, b);
  }

  // ---- the three acceptors ----

  /** `decodeResourceBase64`: every byte in the alphabet, then a strict decode. */
  method DecodeResourceBase64(s: Bytes) returns (r: Option<Bytes>)
    ensures r == ByAlphabet(s)
  {
    var i := 0;
    while i < |s|
      invariant 0 <= i <= |s|
      invariant AllLetters(s[..i])
    {
      if !InAlphabet(s[i]) {
        return None;
      }
      assert s[..i + 1] == s[..i] + [s[i]];
      i := i + 1;
    }
    assert s[..i] == s;
    r := Decode(true, s);
  }

  function ByAlphabet(s: Bytes): Option<Bytes> {
    if AllLetters(s) then Decode(true, s) else None
  }

  /** The gateway assertion check: plain decode, then compare with the
      re-encoding; an empty body is rejected. */
  function ByReencoding(s: Bytes): Option<Bytes> {
    var d := Decode(false, s);
    if d.None? || d.value == [] || Encode(d.value) != s then None else d
  }

  /** `Base64URLBytes.UnmarshalJSON` on the decoded JSON string. */
  function ByUnmarshal(s: Bytes): Option<Bytes> {
    if s == [] || PAD in s then None
    else
      var d := Decode(false, s);
      if d.None? || Encode(d.value) != s then None else d
  }

  lemma StrictIsCanonical(s: Bytes)
    requires ByAlphabet(s).Some?
    ensures Encode(ByAlphabet(s).value) == s
  {
    hide Unpack, Sextets, Unbroken;
    UnbrokenLetters(s);
    SextetsUnpack(Digits(s));
    SpellOfDigits(s);
  }

  lemma {:induction false} EncodeEmpty(b: Bytes)
    ensures Encode(b) == [] <==> b == []
  {
    assert |Encode(b)| == |Sextets(b)|;
  }

  /** The three acceptors accept exactly the same non-empty texts, with the same
      bytes: the encodings of non-empty byte strings. */
  lemma AcceptorsAgree(s: Bytes)
    requires s != []
    ensures ByAlphabet(s) == ByReencoding(s) == ByUnmarshal(s)
    ensures ByAlphabet(s).Some? <==> exists b :: s == Encode(b)
    ensures ByAlphabet(s).Some? ==> ByAlphabet(s).value != [] && Encode(ByAlphabet(s).value) == s
  {
    hide Decode, Encode, AllLetters;
    if ByAlphabet(s).Some? {
      var b := ByAlphabet(s).value;
      StrictIsCanonical(s);
      RoundTrip(false, b);
      EncodeEmpty(b);
      NoPad(b);
    }
    if ByReencoding(s).Some? {
      RoundTrip(true, ByReencoding(s).value);
    }
    if ByUnmarshal(s).Some? {
      RoundTrip(true, ByUnmarshal(s).value);
      EncodeEmpty(ByUnmarshal(s).value);
    }
    forall b | s == Encode(b) ensures ByAlphabet(s).Some? {
      RoundTrip(true, b);
    }
  }

  lemma NoPad(b: Bytes)
    ensures PAD !in Encode(b)
  {
    RoundTrip(true, b);
    assert !InAlphabet(PAD);
  }

  /** Plain decoding alone is not canonical: left-over bits and line breaks are
      ignored, so one byte has many spellings. The acceptors take one of them. */
  lemma PlainIsAmbiguous()
    ensures Decode(false, [81, 81]) == Some([65]) == Decode(false, [81, 82])
    ensures Decode(true, [81, LF, 81]) == Some([65])
    ensures ByAlphabet([81, 81]) == Some([65])
    ensures ByAlphabet([81, 82]) == ByAlphabet([81, LF, 81]) == None
  {
    assert Unbroken([81, 82]) == [81] + Unbroken([82]);
    assert Unbroken([81, 81]) == [81] + Unbroken([81]);
    assert Unbroken([81, LF, 81]) == [81] + Unbroken([LF, 81]);
    assert [LF, 81][1..] == [81];
    assert Unbroken([LF, 81]) == Unbroken([81]);
  }
}
