/** Fixed examples of the wire formats: the bytes themselves, independent of the
    definitions that produce and read them. */
module WireVectors {
  import opened Words
  import opened KeyOrder
  import opened ValueCodec
  import opened Frames
  import V = Varint
  import B = Base64Url

  lemma Varints()
    ensures V.Put(0) == [0] && V.Put(127) == [127] && V.Put(128) == [128, 1] && V.Put(300) == [172, 2]
    ensures V.Zigzag(0) == 0 && V.Zigzag(-1) == 1 && V.Zigzag(1) == 2 && V.Zigzag(-2) == 3
  {
  }

  lemma Scalars()
    ensures Encode(Null) == [0] && Encode(Bool(false)) == [1, 0] && Encode(Bool(true)) == [1, 1]
    ensures Encode(U64(300)) == [2, 172, 2] && Encode(I64(-1)) == [3, 1]
    ensures Encode(Str([97])) == [4, 1, 97] && Encode(Blob([98, 99])) == [5, 2, 98, 99] && Encode(Addr([])) == [6, 0]
  {
    Varints();
    assert V.Put(1) == [1] && V.Put(2) == [2];
  }

  lemma Lists()
    ensures Encode(List([])) == [7, 0] && Encode(List([Null, Bool(true)])) == [7, 2, 0, 1, 1]
  {
    Scalars();
    assert V.Put(0) == [0] && V.Put(2) == [2];
    assert EncodeItems([]) == [];
    assert [Null, Bool(true)][1..] == [Bool(true)] && [Bool(true)][1..] == [];
    assert EncodeItems([Bool(true)]) == [1, 1];
    assert EncodeItems([Null, Bool(true)]) == [0, 1, 1];
  }

  const KEY_A: Bytes := [97]
  const KEY_B: Bytes := [98]

  lemma TwoKeys()
    ensures Listing({KEY_A, KEY_B}) == [KEY_A, KEY_B]
  {
    hide Listing, Leq;
    LeqExact(KEY_A, KEY_B);
    assert KEY_A[..0] == KEY_B[..0] && KEY_A[0] < KEY_B[0];
    ListingUnique(Listing({KEY_A, KEY_B}), [KEY_A, KEY_B]);
  }

  /** A map is written with its keys in ascending order. */
  lemma Maps()
    ensures Encode(Dict(map[KEY_A := Null, KEY_B := Null])) == [8, 2, 1, 97, 0, 1, 98, 0]
  {
    hide Listing;
    var v := Dict(map[KEY_A := Null, KEY_B := Null]);
    assert v.entries.Keys == {KEY_A, KEY_B};
    TwoKeys();
    assert V.Put(1) == [1] && V.Put(2) == [2];
    assert [KEY_A, KEY_B][1..] == [KEY_B] && [KEY_B][1..] == [];
    assert EncodeEntry(v, KEY_A) == [1, 97, 0] && EncodeEntry(v, KEY_B) == [1, 98, 0];
    assert EncodeEntries(v, []) == [];
    assert EncodeEntries(v, [KEY_B]) == [1, 98, 0];
    assert EncodeEntries(v, [KEY_A, KEY_B]) == [1, 97, 0, 1, 98, 0];
    assert Encode(v) == EncodeDict(v);
  }

  /** Length, version, type, flags, request ID, opcode, count, arguments. */
  lemma OneFrame()
    ensures var f := Frame(1, 2, 3, 0x0405, [Null]);
      Framable(f) && EncodeFrame(f) == [0, 0, 0, 12, 1, 1, 0, 2, 0, 0, 0, 3, 4, 5, 1, 0]
  {
    var f := Frame(1, 2, 3, 0x0405, [Null]);
    assert [Null][1..] == [];
    assert EncodeItems([]) == [];
    assert EncodeItems([Null]) == [0];
    assert V.Put(1) == [1];
    assert Payload(f) == [1, 1, 0, 2, 0, 0, 0, 3, 4, 5, 1, 0];
  }

  /** Test vectors of section 10 of RFC 4648, without padding, and one text with
      the two characters of the URL-safe alphabet. */
  lemma Base64()
    ensures B.Encode([102]) == [90, 103] && B.Encode([102, 111]) == [90, 109, 56]
    ensures B.Encode([102, 111, 111]) == [90, 109, 57, 118]
    ensures B.Encode([102, 111, 111, 98, 97, 114]) == [90, 109, 57, 118, 89, 109, 70, 121]
    ensures B.Encode([251, 255]) == [45, 95, 56]
  {
    var foobar: Bytes := [102, 111, 111, 98, 97, 114];
    assert foobar[3..] == [98, 97, 114] && foobar[3..][3..] == [];
    assert B.Sextets([98, 97, 114]) == [24, 38, 5, 50];
  }
}
