/** `ManifestDigest`: sort a copy of the functions, check each one and its
    neighbour, hash the listing. */
module Manifest {
  import opened Words
  import opened Protocol
  import opened JsonText
  import opened Messages
  import K = KeyOrder

  function Codes(s: string): (r: seq<int>)
    ensures |r| == |s|
  {
    seq(|s|, i requires 0 <= i < |s| => s[i] as int)
  }

  lemma CodesInjective(a: string, b: string)
    requires Codes(a) == Codes(b)
    ensures a == b
  {
    forall i | 0 <= i < |a| ensures a[i] == b[i] {
      assert Codes(a)[i] == a[i] as int && Codes(b)[i] == b[i] as int;
    }
  }

  /** By name, then by version. */
  predicate Before(f: Function, g: Function) {
    if f.name != g.name then K.Leq(Codes(f.name), Codes(g.name)) else K.Leq(Codes(f.version), Codes(g.version))
  }

  predicate SameKey(f: Function, g: Function) {
    f.name == g.name && f.version == g.version
  }

  lemma BeforeTotal(f: Function, g: Function)
    ensures Before(f, g) || Before(g, f)
    ensures Before(f, g) && Before(g, f) ==> SameKey(f, g)
  {
    K.LeqTotal(Codes(f.name), Codes(g.name));
    K.LeqTotal(Codes(f.version), Codes(g.version));
    if Codes(f.name) == Codes(g.name) { CodesInjective(f.name, g.name); }
    if Codes(f.version) == Codes(g.version) { CodesInjective(f.version, g.version); }
  }

  /** One string is before another: a proper prefix of it, or smaller in the
      first character in which they differ. */
  ghost predicate Precedes(s: string, t: string) {
    (s <= t && |s| < |t|) || exists i :: 0 <= i < |s| && i < |t| && s[..i] == t[..i] && s[i] < t[i]
  }

  lemma CodesPrefix(s: string, i: nat)
    requires i <= |s|
    ensures Codes(s)[..i] == Codes(s[..i])
  {
  }

  lemma CodesOrder(s: string, t: string)
    ensures K.Leq(Codes(s), Codes(t)) <==> s == t || Precedes(s, t)
  {
    var a, b := Codes(s), Codes(t);
    K.LeqExact(a, b);
    if i :| 0 <= i < |s| && i < |t| && s[..i] == t[..i] && s[i] < t[i] {
      CodesPrefix(s, i);
      CodesPrefix(t, i);
      assert a[..i] == b[..i] && a[i] < b[i];
    }
    if i :| 0 <= i < |a| && i < |b| && a[..i] == b[..i] && a[i] < b[i] {
      CodesPrefix(s, i);
      CodesPrefix(t, i);
      CodesInjective(s[..i], t[..i]);
      assert s[..i] == t[..i] && s[i] < t[i];
    }
    if s <= t {
      CodesPrefix(t, |s|);
      assert t[..|s|] == s;
    }
    if a <= b {
      CodesPrefix(t, |s|);
      CodesInjective(s, t[..|s|]);
    }
  }

  /** By name, then by version within one name; equal keys in any order. */
  ghost predicate InOrder(f: Function, g: Function) {
    Precedes(f.name, g.name) || (f.name == g.name && (f.version == g.version || Precedes(f.version, g.version)))
  }

  lemma BeforeExact(f: Function, g: Function)
    ensures Before(f, g) <==> InOrder(f, g)
  {
    hide Precedes, Codes;
    CodesOrder(f.name, g.name);
    CodesOrder(f.version, g.version);
    Irreflexive(f.name);
  }

  lemma Irreflexive(s: string)
    ensures !Precedes(s, s)
  {
  }

  lemma BeforeTransitive(f: Function, g: Function, h: Function)
    requires Before(f, g) && Before(g, h)
    ensures Before(f, h)
  {
    if f.name == g.name && g.name == h.name {
      K.LeqTransitive(Codes(f.version), Codes(g.version), Codes(h.version));
    } else if f.name != g.name && g.name != h.name {
      K.LeqTransitive(Codes(f.name), Codes(g.name), Codes(h.name));
      if f.name == h.name {
        K.LeqTotal(Codes(f.name), Codes(g.name));
        CodesInjective(f.name, g.name);
      }
    }
  }

  predicate Sorted(fs: seq<Function>) {
    forall i, j :: 0 <= i < j < |fs| ==> Before(fs[i], fs[j])
  }

  /** `sort.Slice` leaves some ascending arrangement; it is not stable, so with
      equal keys any of them. Insertion, here. */
  method SortFunctions(fs: seq<Function>) returns (out: seq<Function>)
    ensures Sorted(out) && multiset(out) == multiset(fs)
    ensures forall i :: 0 < i < |out| ==> InOrder(out[i - 1], out[i])
  {
    out := [];
    var i := 0;
    assert fs[..0] == [];
    while i < |fs|
      invariant 0 <= i <= |fs|
      invariant Sorted(out) && multiset(out) == multiset(fs[..i])
    {
      assert fs[..i + 1] == fs[..i] + [fs[i]];
      out := Place(out, fs[i]);
      i := i + 1;
    }
    assert fs[..i] == fs;
    forall j | 0 < j < |out| ensures InOrder(out[j - 1], out[j]) {
      BeforeExact(out[j - 1], out[j]);
    }
  }

  method Place(fs: seq<Function>, f: Function) returns (out: seq<Function>)
    requires Sorted(fs)
    ensures Sorted(out) && multiset(out) == multiset(fs) + multiset{f}
  {
    hide Before, Sorted;
    var i := 0;
    while i < |fs| && Before(fs[i], f)
      invariant 0 <= i <= |fs|
      invariant forall j :: 0 <= j < i ==> Before(fs[j], f)
    {
      i := i + 1;
    }
    out := fs[..i] + [f] + fs[i..];
    SortedPlace(fs, f, i);
    assert fs == fs[..i] + fs[i..];
    assert multiset(out) == multiset(fs[..i]) + multiset{f} + multiset(fs[i..]);
  }

  lemma SortedPlace(fs: seq<Function>, f: Function, i: nat)
    requires Sorted(fs) && i <= |fs| && forall j :: 0 <= j < i ==> Before(fs[j], f)
    requires i < |fs| ==> !Before(fs[i], f)
    ensures Sorted(fs[..i] + [f] + fs[i..])
  {
    hide Before;
    if i < |fs| {
      BeforeTotal(fs[i], f);
      forall j | i < j < |fs| ensures Before(f, fs[j]) {
        BeforeTransitive(f, fs[i], fs[j]);
      }
    }
  }

  predicate WellFormed(f: Function) {
    Identifier(f.name, 128) && Identifier(f.version, 128) && IsDigest(f.inputSchema) && IsDigest(f.outputSchema)
  }

  ghost predicate Distinct(fs: seq<Function>) {
    forall i, j :: 0 <= i < j < |fs| ==> !SameKey(fs[i], fs[j])
  }

  /** A manifest is acceptable when no two of its functions share name and version. */
  ghost predicate Acceptable(fs: seq<Function>) {
    && 1 <= |fs| <= 64
    && (forall i :: 0 <= i < |fs| ==> WellFormed(fs[i]))
    && Distinct(fs)
  }

  // ---- the text that is hashed ----

  function Listed(fs: seq<Function>): Bytes {
    if fs == [] then [] else [COMMA] + FunctionText(fs[0]) + Listed(fs[1..])
  }

  const LEAD: Bytes := Latin("{\"protocol_version\":1,\"functions\":[")

  /** The functions in the order given, inside the fixed field order. */
  function Text(fs: seq<Function>): Bytes
    requires fs != []
  {
    LEAD + Listed(fs)[1..] + [93, 125]
  }

  lemma ListedStart(fs: seq<Function>, x: Bytes)
    ensures (Listed(fs) + ([93] + x))[0] == if fs == [] then 93 else COMMA
  {
  }

  lemma WellFormedReads(f: Function)
    requires WellFormed(f)
    ensures ReadableFunction(f)
  {
    hide IsDigest, Printable;
    DigestLength(f.inputSchema);
    DigestLength(f.outputSchema);
  }

  lemma {:induction false} PeelListed(a: seq<Function>, b: seq<Function>, x: Bytes, y: Bytes)
    requires (forall f :: f in a ==> WellFormed(f)) && (forall f :: f in b ==> WellFormed(f))
    requires Listed(a) + ([93] + x) == Listed(b) + ([93] + y)
    ensures a == b
  {
    hide FunctionText, WellFormed, ReadableFunction;
    var l, r := Listed(a) + ([93] + x), Listed(b) + ([93] + y);
    ListedStart(a, x);
    ListedStart(b, y);
    if a != [] && b != [] {
      var l', r' := Listed(a[1..]) + ([93] + x), Listed(b[1..]) + ([93] + y);
      assert l == [COMMA] + (FunctionText(a[0]) + l') && r == [COMMA] + (FunctionText(b[0]) + r');
      SamePrefix([COMMA], FunctionText(a[0]) + l', FunctionText(b[0]) + r');
      WellFormedReads(a[0]);
      WellFormedReads(b[0]);
      PeelFunction(a[0], b[0], l', r');
      PeelListed(a[1..], b[1..], x, y);
      assert a == [a[0]] + a[1..] && b == [b[0]] + b[1..];
    }
  }

  /** The text determines the functions and their order. */
  lemma TextNamesFunctions(a: seq<Function>, b: seq<Function>)
    requires a != [] && b != [] && Text(a) == Text(b)
    requires (forall f :: f in a ==> WellFormed(f)) && (forall f :: f in b ==> WellFormed(f))
    ensures a == b
  {
    hide WellFormed, Text, Listed;
    TextTail(a);
    TextTail(b);
    SamePrefix(LEAD, Listed(a)[1..] + ([93] + [125]), Listed(b)[1..] + ([93] + [125]));
    Leading(Listed(a), Listed(b), [93] + [125]);
    PeelListed(a, b, [125], [125]);
  }

  lemma TextTail(a: seq<Function>)
    requires a != []
    ensures Listed(a) != [] && Listed(a)[0] == COMMA && Text(a) == LEAD + (Listed(a)[1..] + ([93] + [125]))
  {
    hide FunctionText, LEAD;
  }

  lemma Leading(x: Bytes, y: Bytes, z: Bytes)
    requires x != [] && y != [] && x[0] == y[0] && x[1..] + z == y[1..] + z
    ensures x + z == y + z
  {
    assert x + z == [x[0]] + (x[1..] + z) && y + z == [y[0]] + (y[1..] + z);
  }

  /** The scan over the sorted copy: neighbours only. */
  method Scan(fs: seq<Function>) returns (ok: bool)
    ensures ok <==> (forall i :: 0 <= i < |fs| ==> WellFormed(fs[i]))
                    && (forall i :: 0 < i < |fs| ==> !SameKey(fs[i - 1], fs[i]))
  {
    var i := 0;
    while i < |fs|
      invariant 0 <= i <= |fs|
      invariant forall j :: 0 <= j < i ==> WellFormed(fs[j])
      invariant forall j :: 0 < j < i ==> !SameKey(fs[j - 1], fs[j])
    {
      if !WellFormed(fs[i]) {
        return false;
      }
      if i > 0 && SameKey(fs[i], fs[i - 1]) {
        assert SameKey(fs[i - 1], fs[i]);
        return false;
      }
      i := i + 1;
    }
    ok := true;
  }

  /** In a sorted listing, equal keys anywhere means equal keys side by side. */
  lemma NeighboursSuffice(fs: seq<Function>)
    requires Sorted(fs) && forall i :: 0 < i < |fs| ==> !SameKey(fs[i - 1], fs[i])
    ensures forall i, j :: 0 <= i < j < |fs| ==> !SameKey(fs[i], fs[j])
  {
    hide Before, SameKey;
    forall i, j | 0 <= i < j < |fs| ensures !SameKey(fs[i], fs[j]) {
      assert !SameKey(fs[i + 1 - 1], fs[i + 1]);
      if i + 1 < j && SameKey(fs[i], fs[j]) {
        SameSide(fs[i + 1], fs[j], fs[i]);
        BeforeTotal(fs[i], fs[i + 1]);
      }
    }
  }

  /** The order looks at the key only. */
  lemma SameSide(f: Function, g: Function, g': Function)
    requires Before(f, g) && SameKey(g', g)
    ensures Before(f, g')
  {
  }

  lemma {:induction false} IndexOf(fs: seq<Function>, f: Function) returns (i: nat)
    requires f in multiset(fs)
    ensures i < |fs| && fs[i] == f
  {
    assert f in fs;
    i :| 0 <= i < |fs| && fs[i] == f;
  }

  /** Distinct keys is a property of the multiset: it does not depend on order. */
  ghost predicate DistinctBag(m: multiset<Function>) {
    (forall f :: f in m ==> m[f] == 1) && (forall f, g :: f in m && g in m && SameKey(f, g) ==> f == g)
  }

  lemma {:induction false} DistinctIsBag(fs: seq<Function>)
    ensures Distinct(fs) <==> DistinctBag(multiset(fs))
    decreases |fs|
  {
    if fs == [] {
    } else {
      var n := |fs| - 1;
      var before, last := fs[..n], fs[n];
      assert fs == before + [last];
      assert multiset(fs) == multiset(before) + multiset{last};
      DistinctIsBag(before);
      if Distinct(fs) {
        DistinctGrows(fs);
      }
      if DistinctBag(multiset(fs)) {
        BagShrinks(multiset(before), last);
        forall i | 0 <= i < n ensures !SameKey(fs[i], fs[n]) {
          assert before[i] in multiset(before);
        }
      }
    }
  }

  lemma DistinctGrows(fs: seq<Function>)
    requires fs != [] && Distinct(fs) && DistinctBag(multiset(fs[..|fs| - 1]))
    ensures DistinctBag(multiset(fs))
  {
    var n := |fs| - 1;
    var before, last := fs[..n], fs[n];
    assert fs == before + [last];
    forall f | f in multiset(before) ensures !SameKey(f, last) {
      var i := IndexOf(before, f);
      assert !SameKey(fs[i], fs[n]);
    }
    BagGrows(multiset(before), last);
  }

  lemma BagGrows(m: multiset<Function>, f: Function)
    requires DistinctBag(m) && forall g :: g in m ==> !SameKey(g, f)
    ensures DistinctBag(m + multiset{f})
  {
    var b := m + multiset{f};
    assert SameKey(f, f) && f !in m;
    forall g | g in b ensures b[g] == 1 {
      assert b[g] == m[g] + multiset{f}[g];
    }
  }

  lemma BagShrinks(m: multiset<Function>, f: Function)
    requires DistinctBag(m + multiset{f})
    ensures DistinctBag(m) && f !in m && forall g :: g in m ==> !SameKey(g, f)
  {
    var b := m + multiset{f};
    assert b[f] == m[f] + 1;
    forall g | g in m ensures m[g] == 1 && !SameKey(g, f) {
      assert g in b && b[g] == 1;
    }
  }

  /** Acceptability of any arrangement is acceptability of all. */
  lemma AcceptableBag(fs: seq<Function>, gs: seq<Function>)
    requires multiset(fs) == multiset(gs)
    ensures Acceptable(fs) <==> Acceptable(gs)
  {
    hide WellFormed, SameKey;
    assert |fs| == |multiset(fs)| == |multiset(gs)| == |gs|;
    DistinctIsBag(fs);
    DistinctIsBag(gs);
    forall i | 0 <= i < |fs| ensures fs[i] in gs { assert fs[i] in multiset(fs); }
    forall i | 0 <= i < |gs| ensures gs[i] in fs { assert gs[i] in multiset(gs); }
  }

  /** With distinct keys there is only one sorted arrangement. */
  lemma {:induction false} SortedUnique(fs: seq<Function>, gs: seq<Function>)
    requires Sorted(fs) && Sorted(gs) && Distinct(fs) && Distinct(gs) && multiset(fs) == multiset(gs)
    ensures fs == gs
    decreases |fs|
  {
    hide *;
    assert |fs| == |multiset(fs)| == |multiset(gs)| == |gs|;
    if fs != [] {
      var f, g := fs[0], gs[0];
      assert f in multiset(gs) && g in multiset(fs);
      var i := IndexOf(gs, f);
      var j := IndexOf(fs, g);
      SamePlace(f, g, fs, gs, i, j);
      TailOk(fs);
      TailOk(gs);
      assert multiset(fs[1..]) == multiset(fs) - multiset{f};
      assert multiset(gs[1..]) == multiset(gs) - multiset{f};
      SortedUnique(fs[1..], gs[1..]);
      assert fs == [f] + fs[1..] && gs == [g] + gs[1..];
    }
  }

  lemma TailOk(fs: seq<Function>)
    requires Sorted(fs) && Distinct(fs) && fs != []
    ensures Sorted(fs[1..]) && Distinct(fs[1..])
    ensures multiset(fs) == multiset{fs[0]} + multiset(fs[1..])
  {
    hide Before, SameKey;
    assert fs == [fs[0]] + fs[1..];
  }

  lemma SamePlace(f: Function, g: Function, fs: seq<Function>, gs: seq<Function>, i: nat, j: nat)
    requires i < |gs| && j < |fs| && fs[0] == f && gs[0] == g && gs[i] == f && fs[j] == g
    requires Sorted(fs) && Sorted(gs) && Distinct(fs)
    ensures f == g
  {
    hide Before;
    BeforeTotal(f, g);
  }

  /** What `ManifestDigest` may return for a manifest. */
  ghost predicate DigestOf(hash: Bytes -> string, version: int, fs: seq<Function>, r: Option<string>) {
    if version == PROTOCOL_VERSION && Acceptable(fs) then
      exists gs ::
        && gs != [] && multiset(gs) == multiset(fs) && r == Some(hash(Text(gs)))
        && Sorted(gs) && forall i :: 0 < i < |gs| ==> InOrder(gs[i - 1], gs[i])
    else r == None
  }

  /** `ManifestDigest`: rejects exactly the malformed manifests and those where
      two functions share name and version. */
  method ManifestDigest(hash: Bytes -> string, version: int, fs: seq<Function>) returns (r: Option<string>)
    ensures DigestOf(hash, version, fs, r)
  {
    hide WellFormed, Sorted, SameKey, Text, InOrder;
    if version != PROTOCOL_VERSION || |fs| < 1 || |fs| > 64 {
      return None;
    }
    var sorted := SortFunctions(fs);
    assert |sorted| == |multiset(sorted)| == |multiset(fs)| == |fs|;
    AcceptableBag(fs, sorted);
    var ok := Scan(sorted);
    if !ok {
      assert !Acceptable(sorted);
      return None;
    }
    NeighboursSuffice(sorted);
    r := Some(hash(Text(sorted)));
  }

  /** The digest, or the rejection, is the same for every order of registration. */
  lemma OrderIrrelevant(hash: Bytes -> string, version: int, fs: seq<Function>, gs: seq<Function>,
                        r: Option<string>, q: Option<string>)
    requires multiset(fs) == multiset(gs) && DigestOf(hash, version, fs, r) && DigestOf(hash, version, gs, q)
    ensures r == q
  {
    hide WellFormed, Sorted, SameKey, Text, InOrder;
    AcceptableBag(fs, gs);
    if version == PROTOCOL_VERSION && Acceptable(fs) {
      var a :| a != [] && multiset(a) == multiset(fs) && r == Some(hash(Text(a)))
        && Sorted(a) && forall i :: 0 < i < |a| ==> InOrder(a[i - 1], a[i]);
      var b :| b != [] && multiset(b) == multiset(gs) && q == Some(hash(Text(b)))
        && Sorted(b) && forall i :: 0 < i < |b| ==> InOrder(b[i - 1], b[i]);
      AcceptableBag(fs, a);
      AcceptableBag(fs, b);
      SortedUnique(a, b);
    }
  }

  /** Conversely one digest names one set of functions, unless the two texts
      hashed are a collision. */
  lemma DigestNamesSet(hash: Bytes -> string, fs: seq<Function>, gs: seq<Function>, r: Option<string>)
    returns (a: seq<Function>, b: seq<Function>)
    requires r.Some? && DigestOf(hash, PROTOCOL_VERSION, fs, r) && DigestOf(hash, PROTOCOL_VERSION, gs, r)
    ensures a != [] && b != [] && multiset(a) == multiset(fs) && multiset(b) == multiset(gs)
    ensures multiset(fs) == multiset(gs) || (Text(a) != Text(b) && hash(Text(a)) == hash(Text(b)))
  {
    hide WellFormed, Sorted, SameKey, Text, InOrder;
    a :| a != [] && multiset(a) == multiset(fs) && r == Some(hash(Text(a)))
        && Sorted(a) && forall i :: 0 < i < |a| ==> InOrder(a[i - 1], a[i]);
    b :| b != [] && multiset(b) == multiset(gs) && r == Some(hash(Text(b)))
        && Sorted(b) && forall i :: 0 < i < |b| ==> InOrder(b[i - 1], b[i]);
    AcceptableBag(fs, a);
    AcceptableBag(gs, b);
    if Text(a) == Text(b) {
      TextNamesFunctions(a, b);
    }
  }
}
