/** The loops of `encodeValue`, `decodeValue` and `readBytes` as they run:
    appending to a buffer, and moving a cursor through one. */
module ValueLoops {
  import opened Words
  import opened KeyOrder
  import opened ValueCodec
  import V = Varint

  lemma Unfold(items: seq<Value>, i: nat)
    requires i < |items|
    ensures EncodeItems(items[i..]) == Encode(items[i]) + EncodeItems(items[i + 1..])
  {
    hide Encode;
    assert items[i..][1..] == items[i + 1..];
  }

  lemma UnfoldEntries(v: Value, keys: seq<Bytes>, i: nat)
    requires v.Dict? && (forall k :: k in keys ==> k in v.entries) && i < |keys|
    ensures EncodeEntries(v, keys[i..]) == EncodeEntry(v, keys[i]) + EncodeEntries(v, keys[i + 1..])
  {
    hide EncodeEntry;
    assert keys[i..][1..] == keys[i + 1..];
  }

  method AppendPrefixed(b: Bytes, s: Bytes) returns (out: Bytes)
    ensures out == b + Prefixed(s)
  {
    out := V.PutUvarint(b, |s| % TWO64);
    out := out + s;
  }

  /** The list loop of `encodeValue`. */
  method EncodeList(b: Bytes, items: seq<Value>) returns (out: Bytes)
    ensures out == b + EncodeItems(items)
    decreases items
  {
    hide Encode, EncodeItems;
    out := b;
    var i := 0;
    assert items[0..] == items;
    while i < |items|
      invariant 0 <= i <= |items|
      invariant out + EncodeItems(items[i..]) == b + EncodeItems(items)
    {
      Unfold(items, i);
      ghost var before := out;
      out := EncodeValue(out, items[i]);
      assert out + EncodeItems(items[i + 1..]) == before + EncodeItems(items[i..]);
      i := i + 1;
    }
    assert EncodeItems(items[i..]) == [] by {
      assert items[i..] == [];
      EmptyItems();
    }
  }

  lemma EmptyItems()
    ensures EncodeItems([]) == []
  {
  }

  lemma EmptyEntries(v: Value)
    requires v.Dict?
    ensures EncodeEntries(v, []) == []
  {
  }

  /** The map loop of `encodeValue`: sort the keys, then write the pairs. */
  method EncodePairs(b: Bytes, v: Value) returns (out: Bytes)
    requires v.Dict?
    ensures out == b + EncodeEntries(v, Listing(v.entries.Keys))
    ensures var keys := Listing(v.entries.Keys); forall i :: 0 < i < |keys| ==> Smaller(keys[i - 1], keys[i])
    decreases v, 0
  {
    hide Encode, EncodeEntries, Listing, Prefixed, Smaller;
    var keys := SortKeys(v.entries.Keys);
    out := b;
    var i := 0;
    assert keys[0..] == keys;
    while i < |keys|
      invariant 0 <= i <= |keys|
      invariant forall k :: k in keys[i..] ==> k in v.entries
      invariant out + EncodeEntries(v, keys[i..]) == b + EncodeEntries(v, keys)
    {
      UnfoldEntries(v, keys, i);
      ghost var before := out;
      out := AppendPrefixed(out, keys[i]);
      out := EncodeValue(out, v.entries[keys[i]]);
      assert out == before + EncodeEntry(v, keys[i]);
      assert out + EncodeEntries(v, keys[i + 1..]) == before + EncodeEntries(v, keys[i..]);
      i := i + 1;
    }
    assert keys[i..] == [];
    EmptyEntries(v);
  }

  /** `encodeValue`. */
  method EncodeValue(b: Bytes, v: Value) returns (out: Bytes)
    ensures out == b + Encode(v)
    decreases v
  {
    hide EncodeItems, EncodeEntries, Listing, Prefixed, V.Put, V.Zigzag;
    match v
    case Null => out := b + [0];
    case Bool(flag) => out := b + [1, if flag then 1 else 0];
    case U64(n) => out := V.PutUvarint(b + [2], n);
    case I64(i) => out := V.PutUvarint(b + [3], V.Zigzag(i));
    case Str(t) => out := AppendPrefixed(b + [4], t);
    case Blob(d) => out := AppendPrefixed(b + [5], d);
    case Addr(t) => out := AppendPrefixed(b + [6], t);
    case List(items) =>
      out := V.PutUvarint(b + [7], |items| % TWO64);
      out := EncodeList(out, items);
      Nested(b, [7], V.Put(|items| % TWO64), EncodeItems(items));
    case Dict(m) =>
      out := V.PutUvarint(b + [8], |m| % TWO64);
      out := EncodePairs(out, v);
      Nested(b, [8], V.Put(|m| % TWO64), EncodeEntries(v, Listing(m.Keys)));
  }

  lemma Nested(a: Bytes, b: Bytes, c: Bytes, d: Bytes)
    ensures a + b + c + d == a + (b + (c + d))
  {
  }

  /** `readBytes`. */
  method ReadBytesAt(b: Bytes, p: nat) returns (r: Option<Bytes>, q: nat)
    requires p <= |b|
    ensures p <= q <= |b|
    ensures r.None? ==> ReadBytes(b[p..]) == None
    ensures r.Some? ==> p < q && ReadBytes(b[p..]) == Some((r.value, b[q..]))
  {
    hide V.Read;
    var n;
    n, q := V.ReadUvarint(b, p);
    if n.None? {
      return None, q;
    }
    if n.value >= TWO63 || n.value > |b| - q {
      return None, q;
    }
    assert b[q..][..n.value] == b[q..q + n.value];
    assert b[q..][n.value..] == b[q + n.value..];
    r, q := Some(b[q..q + n.value]), q + n.value;
  }

  /** The decoder's answer for the items still to come, with those already
      decoded put back in front. */
  ghost function Prepend(done: seq<Value>, l: Option<(seq<Value>, Bytes)>): Option<(seq<Value>, Bytes)> {
    if l.None? then None else Some((done + l.value.0, l.value.1))
  }

  lemma ItemsUnfold(done: seq<Value>, s: Bytes, n: nat)
    requires n > 0
    ensures Decode(s).None? ==> DecodeItems(s, n) == None
    ensures Decode(s).Some? ==>
      Prepend(done, DecodeItems(s, n)) == Prepend(done + [Decode(s).value.0], DecodeItems(Decode(s).value.1, n - 1))
  {
    hide Decode, Tail;
    if Decode(s).Some? && DecodeItems(Decode(s).value.1, n - 1).Some? {
      var l := DecodeItems(Decode(s).value.1, n - 1).value.0;
      assert done + ([Decode(s).value.0] + l) == (done + [Decode(s).value.0]) + l;
    }
  }

  lemma PrependNothing(l: Option<(seq<Value>, Bytes)>)
    ensures Prepend([], l) == l
  {
    if l.Some? {
      assert [] + l.value.0 == l.value.0;
    }
  }

  lemma ItemsNil(done: seq<Value>, s: Bytes)
    ensures Prepend(done, DecodeItems(s, 0)) == Some((done, s))
  {
    assert done + [] == done;
  }

  /** The list loop of `decodeValue`; `n` may be anything up to 2^64 - 1. */
  method DecodeList(b: Bytes, p: nat, n: uint64) returns (r: Option<seq<Value>>, q: nat)
    requires p <= |b|
    ensures p <= q <= |b|
    ensures r.None? ==> DecodeItems(b[p..], n) == None
    ensures r.Some? ==> DecodeItems(b[p..], n) == Some((r.value, b[q..]))
    decreases |b| - p, 1
  {
    hide Decode, DecodeItems, Tail;
    var items: seq<Value> := [];
    q := p;
    var i: nat := 0;
    PrependNothing(DecodeItems(b[p..], n));
    while i < n
      invariant i <= n && p <= q <= |b| && i <= q - p
      invariant DecodeItems(b[p..], n) == Prepend(items, DecodeItems(b[q..], n - i))
      decreases n - i
    {
      ItemsUnfold(items, b[q..], n - i);
      var item;
      item, q := DecodeValue(b, q);
      if item.None? {
        return None, q;
      }
      items := items + [item.value];
      i := i + 1;
    }
    ItemsNil(items, b[q..]);
    r := Some(items);
  }

  lemma EntriesUnfold(s: Bytes, n: nat, m: map<Bytes, Value>)
    requires n > 0
    ensures ReadBytes(s).None? ==> DecodeEntries(s, n, m) == None
    ensures ReadBytes(s).Some? && Decode(ReadBytes(s).value.1).None? ==> DecodeEntries(s, n, m) == None
    ensures ReadBytes(s).Some? && Decode(ReadBytes(s).value.1).Some? ==>
      var (v, rest) := Decode(ReadBytes(s).value.1).value;
      DecodeEntries(s, n, m) == DecodeEntries(rest, n - 1, m[ReadBytes(s).value.0 := v])
  {
    hide Decode, ReadBytes, Tail;
  }

  lemma EntriesNil(s: Bytes, m: map<Bytes, Value>)
    ensures DecodeEntries(s, 0, m) == Some((m, s))
  {
  }

  /** The map loop of `decodeValue`. */
  method DecodePairs(b: Bytes, p: nat, n: uint64) returns (r: Option<map<Bytes, Value>>, q: nat)
    requires p <= |b|
    ensures p <= q <= |b|
    ensures r.None? ==> DecodeEntries(b[p..], n, map[]) == None
    ensures r.Some? ==> DecodeEntries(b[p..], n, map[]) == Some((r.value, b[q..]))
    decreases |b| - p, 1
  {
    hide Decode, DecodeEntries, ReadBytes, Tail;
    var m: map<Bytes, Value> := map[];
    q := p;
    var i: nat := 0;
    while i < n
      invariant i <= n && p <= q <= |b|
      invariant DecodeEntries(b[p..], n, map[]) == DecodeEntries(b[q..], n - i, m)
      decreases n - i
    {
      EntriesUnfold(b[q..], n - i, m);
      var key, item;
      key, q := ReadBytesAt(b, q);
      if key.None? {
        return None, q;
      }
      item, q := DecodeValue(b, q);
      if item.None? {
        return None, q;
      }
      m := m[key.value := item.value];
      i := i + 1;
    }
    EntriesNil(b[q..], m);
    r := Some(m);
  }

  /** `decodeValue`: `None` is a short read or an unknown tag. */
  method DecodeValue(b: Bytes, p: nat) returns (r: Option<Value>, q: nat)
    requires p <= |b|
    ensures p <= q <= |b|
    ensures r.None? ==> Decode(b[p..]) == None
    ensures r.Some? ==> p < q && Decode(b[p..]) == Some((r.value, b[q..]))
    decreases |b| - p, 0
  {
    hide DecodeItems, DecodeEntries, ReadBytes, V.Read, Tail;
    if p >= |b| {
      return None, p;
    }
    var tag := b[p];
    q := p + 1;
    assert b[p..][0] == tag && b[p..][1..] == b[q..];
    if tag == 0 {
      r := Some(Null);
    } else if tag == 1 {
      if q >= |b| {
        return None, q;
      }
      r := Some(Bool(b[q] != 0));
      q := q + 1;
      assert b[p + 1..][1..] == b[q..];
    } else if tag == 2 || tag == 3 {
      var n;
      n, q := V.ReadUvarint(b, q);
      if n.None? {
        return None, q;
      }
      r := Some(if tag == 2 then U64(n.value) else I64(V.Unzigzag(n.value)));
    } else if tag == 4 || tag == 5 || tag == 6 {
      var d;
      d, q := ReadBytesAt(b, q);
      if d.None? {
        return None, q;
      }
      r := Some(if tag == 4 then Str(d.value) else if tag == 5 then Blob(d.value) else Addr(d.value));
    } else if tag == 7 {
      var n, items;
      n, q := V.ReadUvarint(b, q);
      if n.None? {
        return None, q;
      }
      items, q := DecodeList(b, q, n.value);
      if items.None? {
        return None, q;
      }
      r := Some(List(items.value));
    } else if tag == 8 {
      var n, m;
      n, q := V.ReadUvarint(b, q);
      if n.None? {
        return None, q;
      }
      m, q := DecodePairs(b, q, n.value);
      if m.None? {
        return None, q;
      }
      r := Some(Dict(m.value));
    } else {
      r := None;
    }
  }
}
