/** Laws of the value codec: round trip under any suffix, injectivity, prefix
    freedom and the normal form of everything the decoder accepts. */
module ValueLaws {
  import opened Words
  import opened KeyOrder
  import opened ValueCodec
  import V = Varint

  lemma ReadOfPrefixed(s: Bytes, x: Bytes)
    requires |s| < TWO63
    ensures ReadBytes(Prefixed(s) + x) == Some((s, x))
  {
    assert Prefixed(s) + x == V.Put(|s|) + (s + x);
    V.ReadOfPut(|s|, s + x);
    assert (s + x)[..|s|] == s && (s + x)[|s|..] == x;
  }

  lemma {:induction false} RoundTripItems(items: seq<Value>, x: Bytes)
    requires forall i :: i in items ==> Sized(i)
    ensures DecodeItems(EncodeItems(items) + x, |items|) == Some((items, x))
    decreases items
  {
    hide Decode, Encode, Sized, Tail;
    if items == [] {
      assert EncodeItems(items) + x == x;
    } else {
      var rest := EncodeItems(items[1..]) + x;
      assert EncodeItems(items) + x == Encode(items[0]) + rest;
      RoundTrip(items[0], rest);
      RoundTripItems(items[1..], x);
      assert items == [items[0]] + items[1..];
    }
  }

  /** `m` with the entries of `d` under `keys` written over it, in order. */
  ghost function Overlay(m: map<Bytes, Value>, d: map<Bytes, Value>, keys: seq<Bytes>): map<Bytes, Value>
    requires forall k :: k in keys ==> k in d
    decreases |keys|
  {
    if keys == [] then m else Overlay(m[keys[0] := d[keys[0]]], d, keys[1..])
  }

  lemma {:induction false} OverlayAt(m: map<Bytes, Value>, d: map<Bytes, Value>, keys: seq<Bytes>)
    requires forall k :: k in keys ==> k in d
    ensures forall k :: k in Overlay(m, d, keys) <==> k in m || k in keys
    ensures forall k :: k in Overlay(m, d, keys) ==>
      Overlay(m, d, keys)[k] == if k in keys then d[k] else m[k]
    decreases |keys|
  {
    if keys != [] {
      OverlayAt(m[keys[0] := d[keys[0]]], d, keys[1..]);
      assert keys == [keys[0]] + keys[1..];
    }
  }

  lemma {:induction false} RoundTripEntries(v: Value, keys: seq<Bytes>, m: map<Bytes, Value>, x: Bytes)
    requires v.Dict? && Sized(v) && forall k :: k in keys ==> k in v.entries
    ensures DecodeEntries(EncodeEntries(v, keys) + x, |keys|, m) == Some((Overlay(m, v.entries, keys), x))
    decreases v, |keys|
  {
    hide Encode, Decode, Sized, Tail, Prefixed, ReadBytes, DecodeEntries;
    if keys == [] {
      assert EncodeEntries(v, keys) + x == x;
      NoEntries(x, m);
    } else {
      var k := keys[0];
      var rest := EncodeEntries(v, keys[1..]) + x;
      var body := Encode(v.entries[k]) + rest;
      EntryFirst(v, keys, x);
      SizedEntry(v, k);
      ReadOfPrefixed(k, body);
      RoundTrip(v.entries[k], rest);
      DecodeEntry(Prefixed(k) + body, |keys|, m, k, body, v.entries[k], rest);
      RoundTripEntries(v, keys[1..], m[k := v.entries[k]], x);
    }
  }

  lemma EntryFirst(v: Value, keys: seq<Bytes>, x: Bytes)
    requires v.Dict? && keys != [] && forall k :: k in keys ==> k in v.entries
    ensures EncodeEntries(v, keys) + x
         == Prefixed(keys[0]) + (Encode(v.entries[keys[0]]) + (EncodeEntries(v, keys[1..]) + x))
  {
    hide Encode, Prefixed;
  }

  lemma SizedEntry(v: Value, k: Bytes)
    requires v.Dict? && Sized(v) && k in v.entries
    ensures |k| < TWO63 && Sized(v.entries[k])
  {
  }

  lemma DecodeEntry(s: Bytes, n: nat, m: map<Bytes, Value>, k: Bytes, body: Bytes, e: Value, rest: Bytes)
    requires n > 0 && ReadBytes(s) == Some((k, body)) && Decode(body) == Some((e, rest))
    ensures DecodeEntries(s, n, m) == DecodeEntries(rest, n - 1, m[k := e])
  {
    hide ReadBytes, Decode, Tail;
  }

  lemma DictHeader(v: Value, x: Bytes)
    requires v.Dict? && |v.entries| < 0x8000_0000_0000_0000
    ensures var keys := Listing(v.entries.Keys);
            && |keys| == |v.entries|
            && (Encode(v) + x)[0] == 8
            && (Encode(v) + x)[1..] == V.Put(|keys|) + (EncodeEntries(v, keys) + x)
  {
    hide Encode, V.Put, EncodeEntries, Listing, Ascending;
    EncodeOfDict(v);
  }

  lemma DecodeDict(s: Bytes, n: uint64, t: Bytes)
    requires s != [] && s[0] == 8 && V.Read(s[1..]) == Some((n, t)) && DecodeEntries(t, n, map[]).Some?
    ensures Decode(s) == Some((Dict(DecodeEntries(t, n, map[]).value.0), DecodeEntries(t, n, map[]).value.1))
  {
    hide V.Read, DecodeEntries, Tail;
  }

  lemma RoundTripDict(v: Value, x: Bytes)
    requires v.Dict? && Sized(v) && |v.entries| < 0x8000_0000_0000_0000
    ensures Decode(Encode(v) + x) == Some((v, x))
    decreases v, |v.entries| + 1
  {
    hide *;
    var keys := Listing(v.entries.Keys);
    var body := EncodeEntries(v, keys) + x;
    DictHeader(v, x);
    V.ReadOfPut(|keys|, body);
    RoundTripEntries(v, keys, map[], x);
    OverlayAt(map[], v.entries, keys);
    assert Overlay(map[], v.entries, keys) == v.entries;
    DecodeDict(Encode(v) + x, |keys|, body);
  }

  /** Decoding an encoding followed by any bytes gives the value back and stops
      exactly at the end of the encoding. */
  lemma {:induction false} RoundTrip(v: Value, x: Bytes)
    requires Sized(v)
    ensures Decode(Encode(v) + x) == Some((v, x))
    decreases v
  {
    hide V.Put, V.Read, V.Zigzag, V.Unzigzag, DecodeItems, EncodeItems, Prefixed, ReadBytes, Tail;
    var s := Encode(v) + x;
    match v
    case Null =>
      assert s[1..] == x;
    case Bool(_) =>
      assert s[1..][1..] == x;
    case U64(n) =>
      assert s[1..] == V.Put(n) + x;
      V.ReadOfPut(n, x);
    case I64(i) =>
      assert s[1..] == V.Put(V.Zigzag(i)) + x;
      V.ReadOfPut(V.Zigzag(i), x);
      V.ZigzagBijection(i, 0);
    case Str(t) =>
      assert s[1..] == Prefixed(t) + x;
      ReadOfPrefixed(t, x);
    case Blob(t) =>
      assert s[1..] == Prefixed(t) + x;
      ReadOfPrefixed(t, x);
    case Addr(t) =>
      assert s[1..] == Prefixed(t) + x;
      ReadOfPrefixed(t, x);
    case List(items) =>
      var body := EncodeItems(items) + x;
      assert s[1..] == V.Put(|items|) + body;
      V.ReadOfPut(|items|, body);
      RoundTripItems(items, x);
    case Dict(_) =>
      RoundTripDict(v, x);
  }

  /** No encoding is a prefix of another value's encoding. */
  lemma PrefixFree(v: Value, w: Value)
    requires Sized(v) && Sized(w) && Encode(v) <= Encode(w)
    ensures v == w
  {
    var x := Encode(w)[|Encode(v)|..];
    assert Encode(v) + x == Encode(w) + [];
    RoundTrip(v, x);
    RoundTrip(w, []);
  }

  /** Encodings are equal exactly when the values are. */
  lemma EncodeInjective(v: Value, w: Value)
    requires Sized(v) && Sized(w)
    ensures Encode(v) == Encode(w) <==> v == w
  {
    if Encode(v) == Encode(w) {
      PrefixFree(v, w);
    }
  }

  // ---- the normal form ----

  lemma NormalBytes(s: Bytes)
    requires ReadBytes(s).Some?
    ensures |Prefixed(ReadBytes(s).value.0)| <= |s| - |ReadBytes(s).value.1|
  {
    V.PutIsShortest(s);
  }

  lemma ItemsStep(s: Bytes, n: nat) returns (v: Value, rest: Bytes, vs: seq<Value>, end: Bytes)
    requires n > 0 && DecodeItems(s, n).Some?
    ensures Decode(s) == Some((v, rest)) && |rest| < |s|
    ensures DecodeItems(rest, n - 1) == Some((vs, end))
    ensures DecodeItems(s, n) == Some(([v] + vs, end))
  {
    hide Decode, Tail;
    v, rest := Decode(s).value.0, Decode(s).value.1;
    vs, end := DecodeItems(rest, n - 1).value.0, DecodeItems(rest, n - 1).value.1;
  }

  lemma NoItems(s: Bytes)
    ensures DecodeItems(s, 0) == Some(([], s)) && EncodeItems([]) == []
  {
  }

  lemma EncodeCons(v: Value, vs: seq<Value>)
    ensures EncodeItems([v] + vs) == Encode(v) + EncodeItems(vs)
  {
    hide Encode;
    assert ([v] + vs)[1..] == vs;
  }

  lemma {:induction false} NormalItems(s: Bytes, n: nat)
    requires |s| < TWO63 && DecodeItems(s, n).Some?
    ensures var (items, rest) := DecodeItems(s, n).value;
            && (forall i :: i in items ==> Sized(i))
            && |EncodeItems(items)| <= |s| - |rest|
    decreases |s|, 1
  {
    hide *;
    if n == 0 {
      NoItems(s);
    } else {
      var v, rest, vs, end := ItemsStep(s, n);
      NormalForm(s);
      NormalItems(rest, n - 1);
      EncodeCons(v, vs);
    }
  }

  /** The bytes of the entries of `m`, in ascending key order. */
  ghost function Weight(m: map<Bytes, Value>): nat {
    |EncodeEntries(Dict(m), Listing(m.Keys))|
  }

  ghost predicate SizedEntries(m: map<Bytes, Value>) {
    forall k :: k in m ==> |k| < TWO63 && Sized(m[k])
  }

  lemma {:induction false} EntriesConcat(v: Value, a: seq<Bytes>, b: seq<Bytes>)
    requires v.Dict? && (forall k :: k in a ==> k in v.entries) && forall k :: k in b ==> k in v.entries
    ensures EncodeEntries(v, a + b) == EncodeEntries(v, a) + EncodeEntries(v, b)
    decreases |a|
  {
    if a == [] {
      assert a + b == b;
    } else {
      assert (a + b)[1..] == a[1..] + b;
      EntriesConcat(v, a[1..], b);
    }
  }

  /** Only the entries under the listed keys matter. */
  lemma {:induction false} EntriesDepend(v: Value, w: Value, keys: seq<Bytes>)
    requires v.Dict? && w.Dict?
    requires forall k :: k in keys ==> k in v.entries && k in w.entries && v.entries[k] == w.entries[k]
    ensures EncodeEntries(v, keys) == EncodeEntries(w, keys)
    decreases |keys|
  {
    if keys != [] {
      EntriesDepend(v, w, keys[1..]);
    }
  }

  /** Inserting a key into a listing adds exactly that key's entry. */
  lemma EntriesInsert(v: Value, a: seq<Bytes>, k: Bytes, b: seq<Bytes>)
    requires v.Dict? && forall o :: o in a + [k] + b ==> o in v.entries
    requires (forall o :: o in a ==> o in v.entries) && k in v.entries && forall o :: o in b ==> o in v.entries
    requires forall o :: o in a + b ==> o in v.entries
    ensures |EncodeEntries(v, a + [k] + b)| == |EncodeEntries(v, a + b)| + |EncodeEntry(v, k)|
  {
    hide Encode, Prefixed;
    EntriesConcat(v, a, b);
    EntriesConcat(v, a + [k], b);
    EntriesConcat(v, a, [k]);
    assert EncodeEntries(v, [k]) == EncodeEntry(v, k) + EncodeEntries(v, [k][1..]);
  }

  lemma WeightOfNew(m: map<Bytes, Value>, k: Bytes, v: Value)
    requires k !in m
    ensures Weight(m[k := v]) == Weight(m) + |Prefixed(k) + Encode(v)|
  {
    hide Encode, Prefixed, Listing, EncodeEntries, Ascending;
    var d, d' := Dict(m), Dict(m[k := v]);
    assert m[k := v].Keys == m.Keys + {k};
    var l := Listing(m.Keys);
    var i := ListingInsert(m.Keys, k);
    var a, b := l[..i], l[i..];
    assert l == a + b;
    EntriesInsert(d', a, k, b);
    EntriesDepend(d, d', l);
  }

  /** Storing a pair costs at most that pair's own bytes: a repeated key drops
      what the earlier pair contributed. */
  lemma WeightOfUpdate(m: map<Bytes, Value>, k: Bytes, v: Value)
    ensures Weight(m[k := v]) <= Weight(m) + |Prefixed(k) + Encode(v)|
  {
    if k in m {
      var base := m - {k};
      assert m == base[k := m[k]];
      assert m[k := v] == base[k := v];
      WeightOfNew(base, k, m[k]);
      WeightOfNew(base, k, v);
    } else {
      WeightOfNew(m, k, v);
    }
  }

  /** One pair: a key and the value after it. */
  ghost predicate PairAt(s: Bytes, k: Bytes, v: Value, rest: Bytes) {
    && ReadBytes(s).Some? && ReadBytes(s).value.0 == k
    && Decode(ReadBytes(s).value.1) == Some((v, rest))
  }

  lemma EntriesStep(s: Bytes, n: nat, m: map<Bytes, Value>) returns (k: Bytes, v: Value, rest: Bytes)
    requires n > 0 && DecodeEntries(s, n, m).Some?
    ensures PairAt(s, k, v, rest) && |rest| < |s|
    ensures DecodeEntries(s, n, m) == DecodeEntries(rest, n - 1, m[k := v])
  {
    hide Decode, ReadBytes, Tail;
    k := ReadBytes(s).value.0;
    v := Decode(ReadBytes(s).value.1).value.0;
    rest := Decode(ReadBytes(s).value.1).value.1;
  }

  lemma NoEntries(s: Bytes, m: map<Bytes, Value>)
    ensures DecodeEntries(s, 0, m) == Some((m, s))
  {
  }

  lemma SizedUpdate(m: map<Bytes, Value>, k: Bytes, v: Value)
    requires SizedEntries(m) && |k| < TWO63 && Sized(v)
    ensures SizedEntries(m[k := v])
  {
    hide Sized;
  }

  lemma NormalPair(s: Bytes, k: Bytes, v: Value, rest: Bytes)
    requires |s| < TWO63 && PairAt(s, k, v, rest)
    ensures |k| < TWO63 && Sized(v) && |Prefixed(k) + Encode(v)| <= |s| - |rest|
    decreases |s|, 0
  {
    hide Decode, ReadBytes, Tail, Encode, Sized, Prefixed;
    NormalBytes(s);
    NormalForm(ReadBytes(s).value.1);
  }

  lemma {:induction false} NormalEntries(s: Bytes, n: nat, m: map<Bytes, Value>)
    requires |s| < TWO63 && SizedEntries(m) && DecodeEntries(s, n, m).Some?
    ensures var (d, rest) := DecodeEntries(s, n, m).value;
            SizedEntries(d) && Weight(d) <= Weight(m) + |s| - |rest|
    decreases |s|, 1
  {
    hide *;
    if n == 0 {
      NoEntries(s, m);
    } else {
      var k, v, rest := EntriesStep(s, n, m);
      NormalPair(s, k, v, rest);
      WeightOfUpdate(m, k, v);
      SizedUpdate(m, k, v);
      NormalEntries(rest, n - 1, m[k := v]);
    }
  }

  /** What decoding a list or a map amounts to, once its count is read. */
  lemma ListShape(s: Bytes) returns (n: uint64, t: Bytes)
    requires s != [] && s[0] == 7 && Decode(s).Some?
    ensures V.Read(s[1..]) == Some((n, t)) && |t| + 1 < |s| && DecodeItems(t, n).Some?
    ensures Decode(s) == Some((List(DecodeItems(t, n).value.0), DecodeItems(t, n).value.1))
  {
    hide V.Read, DecodeItems, Tail;
    n, t := V.Read(s[1..]).value.0, V.Read(s[1..]).value.1;
  }

  lemma DictShape(s: Bytes) returns (n: uint64, t: Bytes)
    requires s != [] && s[0] == 8 && Decode(s).Some?
    ensures V.Read(s[1..]) == Some((n, t)) && |t| + 1 < |s| && DecodeEntries(t, n, map[]).Some?
    ensures Decode(s) == Some((Dict(DecodeEntries(t, n, map[]).value.0), DecodeEntries(t, n, map[]).value.1))
  {
    hide V.Read, DecodeEntries, Tail;
    n, t := V.Read(s[1..]).value.0, V.Read(s[1..]).value.1;
  }

  lemma ListLength(items: seq<Value>)
    requires |items| < TWO63 && forall i :: i in items ==> Sized(i)
    ensures Sized(List(items))
    ensures |Encode(List(items))| == 1 + |V.Put(|items|)| + |EncodeItems(items)|
  {
    hide V.Put, EncodeItems;
  }

  lemma DictLength(m: map<Bytes, Value>)
    requires |m| < TWO63 && SizedEntries(m)
    ensures Sized(Dict(m))
    ensures |Encode(Dict(m))| == 1 + |V.Put(|m|)| + Weight(m)
  {
    hide *;
    SizedDict(m);
    EncodeOfDict(Dict(m));
    EntriesLength(m);
  }

  lemma SizedDict(m: map<Bytes, Value>)
    requires |m| < TWO63 && SizedEntries(m)
    ensures Sized(Dict(m))
  {
  }

  lemma EntriesLength(m: map<Bytes, Value>)
    requires |m| < TWO63
    ensures |EncodeDict(Dict(m))| == 1 + |V.Put(|m|)| + Weight(m)
  {
    hide Encode, V.Put, EncodeEntries, Listing;
  }

  lemma EncodeOfDict(v: Value)
    requires v.Dict?
    ensures Encode(v) == EncodeDict(v)
  {
    hide EncodeDict, EncodeItems, Listing, V.Put, Prefixed;
  }

  lemma NormalList(s: Bytes)
    requires |s| < TWO63 && s != [] && s[0] == 7 && Decode(s).Some?
    ensures var (v, rest) := Decode(s).value; Sized(v) && |Encode(v)| <= |s| - |rest|
    decreases |s|, 0, 0
  {
    hide *;
    var n, t := ListShape(s);
    V.PutIsShortest(s[1..]);
    NormalItems(t, n);
    ListLength(DecodeItems(t, n).value.0);
  }

  lemma EmptyWeight()
    ensures SizedEntries(map[]) && Weight(map[]) == 0
  {
  }

  lemma NormalDict(s: Bytes)
    requires |s| < TWO63 && s != [] && s[0] == 8 && Decode(s).Some?
    ensures var (v, rest) := Decode(s).value; Sized(v) && |Encode(v)| <= |s| - |rest|
    decreases |s|, 0, 0
  {
    hide *;
    var n, t := DictShape(s);
    V.PutIsShortest(s[1..]);
    EmptyWeight();
    NormalEntries(t, n, map[]);
    var d := DecodeEntries(t, n, map[]).value.0;
    V.PutMonotone(|d|, n);
    DictLength(d);
  }

  /** Everything the decoder accepts is a value the encoder can write, in no
      more bytes than were consumed. */
  lemma {:induction false} NormalForm(s: Bytes)
    requires |s| < TWO63 && Decode(s).Some?
    ensures var (v, rest) := Decode(s).value; Sized(v) && |Encode(v)| <= |s| - |rest|
    decreases |s|, 0
  {
    var t := s[1..];
    if s[0] == 2 {
      V.PutIsShortest(t);
    } else if s[0] == 3 {
      V.PutIsShortest(t);
      V.ZigzagBijection(0, V.Read(t).value.0);
    } else if s[0] == 4 || s[0] == 5 || s[0] == 6 {
      NormalBytes(t);
    } else if s[0] == 7 {
      NormalList(s);
    } else if s[0] == 8 {
      NormalDict(s);
    }
  }

  /** Re-encoding what was decoded is a fixed point of decoding. */
  lemma Normalize(s: Bytes, x: Bytes)
    requires |s| < TWO63 && Decode(s).Some?
    ensures var (v, rest) := Decode(s).value;
            Decode(Encode(v) + x) == Some((v, x)) && |Encode(v)| <= |s| - |rest|
  {
    NormalForm(s);
    RoundTrip(Decode(s).value.0, x);
  }
}
