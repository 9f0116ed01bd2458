/** The tagged value codec of `lotor/wire.go`: `encodeValue`, `decodeValue` and
    `readBytes`. The functions give the byte-level meaning on whole strings; the
    methods are the buffer-appending and cursor-moving loops of the source. */
module ValueCodec {
  import opened Words
  import opened KeyOrder
  import V = Varint

  datatype Value =
    | Null
    | Bool(flag: bool)
    | U64(n: uint64)
    | I64(i: int64)
    | Str(text: Bytes)
    | Blob(data: Bytes)
    | Addr(text: Bytes)
    | List(items: seq<Value>)
    | Dict(entries: map<Bytes, Value>)

  /** Go strings, slices and maps hold fewer than 2^63 elements. */
  ghost predicate Sized(v: Value) {
    match v
    case Str(t) => |t| < TWO63
    case Blob(d) => |d| < TWO63
    case Addr(t) => |t| < TWO63
    case List(items) => |items| < TWO63 && forall x :: x in items ==> Sized(x)
    case Dict(m) => |m| < TWO63 && forall k :: k in m ==> |k| < TWO63 && Sized(m[k])
    case _ => true
  }

  // ---- encoding ----

  /** A length-prefixed byte string. */
  function Prefixed(s: Bytes): Bytes {
    V.Put(|s| % TWO64) + s
  }

  ghost function Encode(v: Value): (r: Bytes)
    ensures |r| >= 1
    decreases v
  {
    match v
    case Null => [0]
    case Bool(flag) => [1, if flag then 1 else 0]
    case U64(n) => [2] + V.Put(n)
    case I64(i) => [3] + V.Put(V.Zigzag(i))
    case Str(t) => [4] + Prefixed(t)
    case Blob(d) => [5] + Prefixed(d)
    case Addr(t) => [6] + Prefixed(t)
    case List(items) => [7] + (V.Put(|items| % TWO64) + EncodeItems(items))
    case Dict(m) => EncodeDict(v)
  }

  /** Go map iteration order is random; the keys are sorted before writing. */
  ghost function EncodeDict(v: Value): (r: Bytes)
    requires v.Dict?
    ensures |r| >= 1
    decreases v, |v.entries| + 2
  {
    [8] + (V.Put(|v.entries| % TWO64) + EncodeEntries(v, Listing(v.entries.Keys)))
  }

  ghost function EncodeItems(items: seq<Value>): Bytes
    decreases items
  {
    if items == [] then [] else Encode(items[0]) + EncodeItems(items[1..])
  }

  ghost function EncodeEntry(v: Value, k: Bytes): (r: Bytes)
    requires v.Dict? && k in v.entries
    decreases v, 0
  {
    Prefixed(k) + Encode(v.entries[k])
  }

  ghost function EncodeEntries(v: Value, keys: seq<Bytes>): Bytes
    requires v.Dict? && forall k :: k in keys ==> k in v.entries
    decreases v, |keys| + 1
  {
    if keys == [] then [] else EncodeEntry(v, keys[0]) + EncodeEntries(v, keys[1..])
  }

  // ---- decoding ----

  /** `rest` is what remains of `s` after taking something off its front. */
  predicate Tail(rest: Bytes, s: Bytes) {
    |rest| <= |s| && rest == s[|s| - |rest|..]
  }

  /** `readBytes`: a length that does not fit a Go int, or that runs past the
      end of the buffer, is a short read. */
  function ReadBytes(s: Bytes): (r: Option<(Bytes, Bytes)>)
    ensures r.Some? ==> |r.value.1| < |s| && Tail(r.value.1, s)
    ensures r.Some? ==> |r.value.0| + |r.value.1| < |s|
  {
    var h := V.Read(s);
    if h.None? || h.value.0 >= TWO63 || h.value.0 > |h.value.1| then None
    else
      var (n, rest) := h.value;
      assert rest[n..] == s[|s| - |rest[n..]|..];
      Some((rest[..n], rest[n..]))
  }

  /** `decodeValue` on the bytes from the cursor on: the value and the bytes
      after it. A successful decode always consumes at least one byte. */
  function Decode(s: Bytes): (r: Option<(Value, Bytes)>)
    ensures r.Some? ==> |r.value.1| < |s| && Tail(r.value.1, s)
    decreases |s|, 0
  {
    if s == [] then None
    else
      var tag, t := s[0], s[1..];
      if tag == 0 then Some((Null, t))
      else if tag == 1 then
        if t == [] then None else Some((Bool(t[0] != 0), t[1..]))
      else if tag == 2 || tag == 3 then
        var h := V.Read(t);
        if h.None? then None
        else Some((if tag == 2 then U64(h.value.0) else I64(V.Unzigzag(h.value.0)), h.value.1))
      else if tag == 4 || tag == 5 || tag == 6 then
        var h := ReadBytes(t);
        if h.None? then None
        else
          var (d, rest) := h.value;
          Some((if tag == 4 then Str(d) else if tag == 5 then Blob(d) else Addr(d), rest))
      else if tag == 7 then
        var h := V.Read(t);
        if h.None? then None
        else
          var l := DecodeItems(h.value.1, h.value.0);
          if l.None? then None else Some((List(l.value.0), l.value.1))
      else if tag == 8 then
        var h := V.Read(t);
        if h.None? then None
        else
          var l := DecodeEntries(h.value.1, h.value.0, map[]);
          if l.None? then None else Some((Dict(l.value.0), l.value.1))
      else None
  }

  /** `n` values in a row. However large the count, there can be no more of
      them than bytes. */
  function DecodeItems(s: Bytes, n: nat): (r: Option<(seq<Value>, Bytes)>)
    ensures r.Some? ==> Tail(r.value.1, s) && |r.value.0| == n && n + |r.value.1| <= |s|
    decreases |s|, 1
  {
    if n == 0 then Some(([], s))
    else
      var h := Decode(s);
      if h.None? then None
      else
        var l := DecodeItems(h.value.1, n - 1);
        if l.None? then None else Some(([h.value.0] + l.value.0, l.value.1))
  }

  /** `n` key/value pairs in a row, a repeated key replacing the earlier one. */
  function DecodeEntries(s: Bytes, n: nat, m: map<Bytes, Value>): (r: Option<(map<Bytes, Value>, Bytes)>)
    ensures r.Some? ==> Tail(r.value.1, s) && 2 * n + |r.value.1| <= |s|
    ensures r.Some? ==> |m| <= |r.value.0| <= |m| + n
    decreases |s|, 1
  {
    if n == 0 then Some((m, s))
    else
      var k := ReadBytes(s);
      if k.None? then None
      else
        var h := Decode(k.value.1);
        if h.None? then None
        else
          var m' := m[k.value.0 := h.value.0];
          assert m'.Keys == m.Keys + {k.value.0};
          DecodeEntries(h.value.1, n - 1, m')
  }
}
