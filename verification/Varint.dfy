/** The unsigned LEB128 varint and the zigzag map of `lotor/wire.go`. */
module Varint {
  import opened Words

  /** The bytes `putUvarint` appends for `v`. */
  function Put(v: uint64): (r: Bytes)
    ensures 1 <= |r|
    decreases v
  {
    if v < 128 then [v] else [v % 128 + 128] + Put(v / 128)
  }

  /** How many bytes the varint at the front of `s` takes: through the first
      byte whose top bit is clear, or 0 when there is none. */
  function Span(s: Bytes): (n: nat)
    ensures n <= |s|
    ensures n > 0 ==> s[n - 1] < 128 && forall i :: 0 <= i < n - 1 ==> s[i] >= 128
    ensures n == 0 ==> forall i :: 0 <= i < |s| ==> s[i] >= 128
  {
    if s == [] then 0
    else if s[0] < 128 then 1
    else
      var n := Span(s[1..]);
      if n == 0 then 0 else n + 1
  }

  /** The little-endian base-128 number spelt by the low seven bits of `s`. */
  function Base128(s: Bytes): nat {
    if s == [] then 0 else s[0] % 128 + 128 * Base128(s[1..])
  }

  /** Reading a varint off the front of `s`: its value and what follows it.
      The encoding may be any number of bytes long. */
  function Read(s: Bytes): (r: Option<(uint64, Bytes)>)
    ensures r.Some? ==> |r.value.1| < |s| && r.value.1 == s[|s| - |r.value.1|..]
  {
    var n := Span(s);
    if n == 0 then None
    else Some((Base128(s[..n]) % TWO64, s[n..]))
  }

  /** `putUvarint`: appends in place, least significant group first. */
  method PutUvarint(b: Bytes, n: uint64) returns (out: Bytes)
    ensures out == b + Put(n)
  {
    out := b;
    var v: uint64 := n;
    while v >= 128
      invariant out + Put(v) == b + Put(n)
      decreases v
    {
      var c := v % 128;
      ghost var before := v;
      v := v / 128;
      c := c + 128;
      assert out + Put(before) == (out + [c]) + Put(v);
      out := out + [c];
    }
    out := out + [v];
  }

  lemma {:induction false} Base128Snoc(s: Bytes, c: byte)
    ensures Base128(s + [c]) == Base128(s) + (c % 128) * Pow2(7 * |s|)
  {
    if s == [] {
      assert s + [c] == [c];
      assert Base128([c]) == c % 128 + 128 * Base128([c][1..]);
    } else {
      Base128Snoc(s[1..], c);
      assert (s + [c])[1..] == s[1..] + [c];
      Pow2Adds(7, 7 * (|s| - 1));
      Pow2Of64();
      assert 7 * |s| == 7 + 7 * |s[1..]|;
      var d := c % 128;
      var q := Pow2(7 * |s[1..]|);
      assert 128 * (d * q) == d * (128 * q);
    }
  }

  lemma {:induction false} Base128Bound(s: Bytes)
    ensures Base128(s) < Pow2(7 * |s|)
  {
    if s != [] {
      Base128Bound(s[1..]);
      Pow2Of64();
      Pow2Adds(7, 7 * |s[1..]|);
      assert 7 * |s| == 7 + 7 * |s[1..]|;
    }
  }

  lemma MulStep(a: nat, b: nat, p: nat)
    requires a < b
    ensures a * p + p <= b * p
  {
    assert b * p == a * p + (b - a) * p;
    assert (b - a) * p == p + (b - a - 1) * p;
  }

  lemma UniqueMod(x: nat, q: nat, r: nat, m: nat)
    requires r < m && x == q * m + r
    ensures x % m == r
  {
    var k := x / m;
    if k < q {
      MulStep(k, q, m);
    } else if q < k {
      MulStep(q, k, m);
    }
  }

  lemma MultipleMod(x: nat, k: nat, m: nat)
    requires m > 0
    ensures (x + k * m) % m == x % m
  {
    var q := x / m;
    assert x + k * m == (q + k) * m + x % m;
    UniqueMod(x + k * m, q + k, x % m, m);
  }

  /** Past bit 63 a shifted group leaves nothing behind. */
  lemma OrStepHigh(total: nat, c: nat, shift: nat)
    requires shift >= 64
    ensures BitOr(total % TWO64, Shl64(c, shift)) == (total + c * Pow2(shift)) % TWO64
  {
    Pow2Of64();
    Pow2Adds(64, shift - 64);
    var k := c * Pow2(shift - 64);
    assert c * Pow2(shift) == k * TWO64;
    MultipleMod(total, k, TWO64);
    MultipleMod(0, k, TWO64);
    OrZero(total % TWO64);
  }

  lemma SplitGroup(c: nat, p: nat, q: nat)
    requires p >= 1 && q >= 1
    ensures c * p == (c / q) * (p * q) + (c % q) * p
    ensures (c % q) * p + p <= p * q
  {
    var high, low := c / q, c % q;
    assert c == high * q + low;
    assert (high * q + low) * p == high * (p * q) + low * p;
    MulStep(low, q, p);
  }

  lemma LowGroup(total: nat, c: nat, p: nat, q: nat, m: nat)
    requires total < p && q >= 1 && p * q == m
    ensures total % m == total && (c * p) % m == (c % q) * p
    ensures (total + c * p) % m == total + (c % q) * p
  {
    SplitGroup(c, p, q);
    var low := (c % q) * p;
    UniqueMod(c * p, c / q, low, m);
    UniqueMod(total + c * p, c / q, total + low, m);
    UniqueMod(total, 0, total, m);
  }

  lemma OrStepLow(total: nat, c: nat, shift: nat)
    requires total < Pow2(shift) && shift < 64
    ensures BitOr(total % TWO64, Shl64(c, shift)) == (total + c * Pow2(shift)) % TWO64
  {
    var q := Pow2(64 - shift);
    assert Pow2(shift) * q == TWO64 by {
      Pow2Of64();
      Pow2Adds(shift, 64 - shift);
    }
    LowGroup(total, c, Pow2(shift), q, TWO64);
    BitOrDisjoint(total, c % q, shift);
  }

  /** One step of `readUvarint`: OR-ing in the next seven bits, with everything
      above bit 63 lost, adds them modulo 2^64. */
  lemma OrStep(total: nat, c: nat, shift: nat)
    requires total < Pow2(shift)
    ensures BitOr(total % TWO64, Shl64(c, shift)) == (total + c * Pow2(shift)) % TWO64
  {
    if shift >= 64 {
      OrStepHigh(total, c, shift);
    } else {
      OrStepLow(total, c, shift);
    }
  }

  /** Where the terminating byte is decides the span. */
  lemma SpanIs(s: Bytes, n: nat)
    requires 0 < n <= |s| && s[n - 1] < 128
    requires forall i :: 0 <= i < n - 1 ==> s[i] >= 128
    ensures Span(s) == n
  {
    var last := s[n - 1];
    assert Span(s) != 0;
    assert s[Span(s) - 1] < 128;
  }

  lemma Accumulate(s: Bytes, c: byte, result: uint64)
    requires result == Base128(s) % TWO64
    ensures BitOr(result, Shl64(c % 128, 7 * |s|)) == Base128(s + [c]) % TWO64
  {
    Base128Bound(s);
    Base128Snoc(s, c);
    OrStep(Base128(s), c % 128, 7 * |s|);
  }

  lemma Terminated(b: Bytes, p: nat, q: nat)
    requires p < q <= |b| && b[q - 1] < 128
    requires forall i :: p <= i < q - 1 ==> b[i] >= 128
    ensures Read(b[p..]) == Some((Base128(b[p..q]) % TWO64, b[q..]))
  {
    SpanIs(b[p..], q - p);
    assert b[p..][..q - p] == b[p..q];
    assert b[p..][q - p..] == b[q..];
  }

  /** `readUvarint`: the cursor moves from `p` to `q`; `None` is a short read. */
  method ReadUvarint(b: Bytes, p: nat) returns (r: Option<uint64>, q: nat)
    requires p <= |b|
    ensures p <= q <= |b|
    ensures r.None? ==> q == |b| && Read(b[p..]) == None
    ensures r.Some? ==> p < q && Read(b[p..]) == Some((r.value, b[q..]))
  {
    q := p;
    var result: uint64 := 0;
    var shift: nat := 0;
    while true
      invariant p <= q <= |b|
      invariant shift == 7 * (q - p)
      invariant result == Base128(b[p..q]) % TWO64
      invariant forall i :: p <= i < q ==> b[i] >= 128
      decreases |b| - q
    {
      if q >= |b| {
        assert b[p..] == b[p..q];
        return None, q;
      }
      var c := b[q];
      Accumulate(b[p..q], c, result);
      assert b[p..q + 1] == b[p..q] + [c];
      q := q + 1;
      result := BitOr(result, Shl64(c % 128, shift));
      if c < 128 {
        Terminated(b, p, q);
        return Some(result), q;
      }
      shift := shift + 7;
    }
  }

  // ---- round trip and minimality ----

  lemma {:induction false} SpanOfPut(v: uint64, x: Bytes)
    ensures Span(Put(v) + x) == |Put(v)|
    ensures Base128(Put(v)) == v
    decreases v
  {
    if v < 128 {
      assert (Put(v) + x)[0] == v;
      assert Put(v)[1..] == [];
    } else {
      SpanOfPut(v / 128, x);
      assert (Put(v) + x)[1..] == Put(v / 128) + x;
      assert Put(v)[1..] == Put(v / 128);
    }
  }

  /** Reading back what `putUvarint` wrote, followed by anything, gives the
      value and stops exactly at the end of the varint. */
  lemma ReadOfPut(v: uint64, x: Bytes)
    ensures Read(Put(v) + x) == Some((v, x))
  {
    hide Put, Span, Base128;
    SpanOfPut(v, x);
    assert (Put(v) + x)[..|Put(v)|] == Put(v);
    assert (Put(v) + x)[|Put(v)|..] == x;
  }

  lemma {:induction false} PutLength(v: uint64, n: nat)
    requires n >= 1 && v < Pow2(7 * n)
    ensures |Put(v)| <= n
    decreases n
  {
    Pow2Of64();
    if v >= 128 {
      if n == 1 {
        assert false;
      }
      Pow2Adds(7, 7 * (n - 1));
      assert 7 * n == 7 + 7 * (n - 1);
      PutLength(v / 128, n - 1);
    }
  }

  lemma {:induction false} PutMonotone(v: uint64, w: uint64)
    requires v <= w
    ensures |Put(v)| <= |Put(w)|
    decreases v
  {
    if v >= 128 {
      PutMonotone(v / 128, w / 128);
    }
  }

  /** Whatever length the accepted encoding had, the encoder's is no longer. */
  lemma PutIsShortest(s: Bytes)
    requires Read(s).Some?
    ensures |Put(Read(s).value.0)| <= |s| - |Read(s).value.1|
  {
    var n := Span(s);
    Base128Bound(s[..n]);
    var w := Base128(s[..n]);
    assert w % TWO64 <= w;
    PutLength(w % TWO64, n);
  }

  // ---- zigzag ----

  /** `zigzag`: the negation is taken after adding one, so it cannot overflow. */
  function Zigzag(v: int64): (r: uint64)
    ensures r % 2 == 0 <==> v >= 0
  {
    if v >= 0 then v * 2 else -(v + 1) * 2 + 1
  }

  /** `uint64ToInt64`: out-of-range words become 0. */
  function ToInt64(n: uint64): int64 {
    if n >= TWO63 then 0 else n
  }

  function Unzigzag(v: uint64): int64 {
    if v % 2 == 0 then ToInt64(v / 2) else -ToInt64(v / 2) - 1
  }

  /** zigzag and unzigzag are inverse bijections between int64 and uint64. */
  lemma ZigzagBijection(v: int64, w: uint64)
    ensures Unzigzag(Zigzag(v)) == v
    ensures Zigzag(Unzigzag(w)) == w
  {
    assert Zigzag(v) / 2 == if v >= 0 then v else -(v + 1);
    assert w == 2 * (w / 2) + w % 2;
  }
}
