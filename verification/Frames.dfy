/** Length-prefixed LWP/1 frames: `encodeFrame` and `decodeFrame`. */
module Frames {
  import opened Words
  import opened ValueCodec
  import opened ValueLaws
  import L = ValueLoops
  import V = Varint

  datatype Frame = Frame(typ: byte, flags: uint16, reqID: uint32, opcode: uint16, args: seq<Value>)

  const PROTO_VERSION: byte := 1

  function Be16(n: uint16): (r: Bytes)
    ensures |r| == 2
  {
    [n / 256, n % 256]
  }

  function Be32(n: uint32): (r: Bytes)
    ensures |r| == 4
  {
    [n / 0x100_0000, n / 0x1_0000 % 256, n / 256 % 256, n % 256]
  }

  function ReadBe16(s: Bytes): uint16
    requires |s| >= 2
  {
    var a: int, b: int := s[0], s[1];
    a * 256 + b
  }

  function ReadBe32(s: Bytes): uint32
    requires |s| >= 4
  {
    var a: int, b: int, c: int, d: int := s[0], s[1], s[2], s[3];
    a * 0x100_0000 + b * 0x1_0000 + c * 256 + d
  }

  lemma BigEndian(n: uint32, h: uint16)
    ensures ReadBe32(Be32(n)) == n && ReadBe16(Be16(h)) == h
  {
    var a, b, c := n / 256, n / 0x1_0000, n / 0x100_0000;
    assert a / 256 == b && b / 256 == c;
    assert n == a * 256 + n % 256 && a == b * 256 + a % 256 && b == c * 256 + b % 256;
  }

  /** Version, type, flags, request ID and opcode: ten bytes. */
  function Header(f: Frame): (r: Bytes)
    ensures |r| == 10
  {
    [PROTO_VERSION, f.typ] + Be16(f.flags) + Be32(f.reqID) + Be16(f.opcode)
  }

  ghost function Payload(f: Frame): (r: Bytes)
    ensures |r| >= 10
  {
    Header(f) + (V.Put(|f.args| % TWO64) + EncodeItems(f.args))
  }

  /** What `encodeFrame` can write: a payload longer than 2^32 - 1 panics. */
  ghost predicate Framable(f: Frame) {
    |Payload(f)| < TWO32 && |f.args| < TWO63 && forall a :: a in f.args ==> Sized(a)
  }

  ghost function EncodeFrame(f: Frame): (r: Bytes)
    requires Framable(f)
    ensures |r| == 4 + |Payload(f)|
  {
    Be32(|Payload(f)|) + Payload(f)
  }

  /** `Incomplete` is the `ok == false` result: wait for more bytes. `Panicked`
      is an index out of range in the header reads. */
  datatype Outcome = Incomplete | Panicked | Got(frame: Frame, consumed: nat)

  /** `decodeFrame`. The arguments are read from the whole buffer, not from the
      announced length. */
  function DecodeFrame(buf: Bytes): (r: Outcome)
    ensures r.Got? ==> 4 <= r.consumed <= |buf|
  {
    if |buf| < 4 then Incomplete
    else
      var total := 4 + ReadBe32(buf);
      if |buf| < total then Incomplete
      else if |buf| < 14 then Panicked
      else
        var argc := V.Read(buf[14..]);
        if argc.None? then Incomplete
        else
          var args := DecodeItems(argc.value.1, argc.value.0);
          if args.None? then Incomplete
          else Got(Frame(buf[5], ReadBe16(buf[6..]), ReadBe32(buf[8..]), ReadBe16(buf[12..]), args.value.0), total)
  }

  /** `encodeFrame`, appending as it goes. */
  method AppendFrame(f: Frame) returns (out: Bytes)
    requires Framable(f)
    ensures out == EncodeFrame(f)
  {
    hide V.Put, EncodeItems;
    var p := Header(f);
    p := V.PutUvarint(p, |f.args| % TWO64);
    p := L.EncodeList(p, f.args);
    assert p == Payload(f);
    out := Be32(|p|) + p;
  }

  /** `decodeFrame`, moving a cursor through the buffer. */
  method TakeFrame(buf: Bytes) returns (r: Outcome)
    ensures r == DecodeFrame(buf)
  {
    hide V.Read, DecodeItems;
    if |buf| < 4 {
      return Incomplete;
    }
    var total := 4 + ReadBe32(buf);
    if |buf| < total {
      return Incomplete;
    }
    if |buf| < 14 {
      return Panicked;
    }
    var argc, p := V.ReadUvarint(buf, 14);
    if argc.None? {
      return Incomplete;
    }
    var args, _ := L.DecodeList(buf, p, argc.value);
    if args.None? {
      return Incomplete;
    }
    r := Got(Frame(buf[5], ReadBe16(buf[6..]), ReadBe32(buf[8..]), ReadBe16(buf[12..]), args.value), total);
  }

  // ---- round trip ----

  lemma Be32Front(n: uint32, x: Bytes)
    ensures ReadBe32(Be32(n) + x) == n
  {
    BigEndian(n, 0);
  }

  lemma ReadHeader(f: Frame, n: uint32, x: Bytes)
    ensures var buf := Be32(n) + Header(f) + x;
            && buf[14..] == x && buf[5] == f.typ && ReadBe32(buf) == n
            && ReadBe16(buf[6..]) == f.flags && ReadBe32(buf[8..]) == f.reqID && ReadBe16(buf[12..]) == f.opcode
  {
    BigEndian(n, f.flags);
    BigEndian(f.reqID, f.opcode);
  }

  /** A frame at the front of the buffer is decoded exactly, whatever follows. */
  lemma FrameRoundTrip(f: Frame, x: Bytes)
    requires Framable(f)
    ensures DecodeFrame(EncodeFrame(f) + x) == Got(f, |EncodeFrame(f)|)
  {
    hide V.Put, V.Read, EncodeItems, DecodeItems, Header, ReadBe16, ReadBe32, Be32, Sized;
    var n := |Payload(f)|;
    var items := EncodeItems(f.args) + x;
    var body := V.Put(|f.args|) + items;
    var buf := EncodeFrame(f) + x;
    assert buf == Be32(n) + Header(f) + body;
    ReadHeader(f, n, body);
    V.ReadOfPut(|f.args|, items);
    RoundTripItems(f.args, x);
  }

  /** Less than a whole frame decodes to nothing, without a panic. */
  lemma FrameShort(f: Frame, x: Bytes)
    requires Framable(f) && x <= EncodeFrame(f) && |x| < |EncodeFrame(f)|
    ensures DecodeFrame(x) == Incomplete
  {
    hide Payload;
    if |x| >= 4 {
      var n := |Payload(f)|;
      assert x[..4] == Be32(n);
      Be32Front(n, x[4..]);
      assert x == Be32(n) + x[4..];
    }
  }

  // ---- streams ----

  ghost predicate AllFramable(fs: seq<Frame>) {
    forall f :: f in fs ==> Framable(f)
  }

  ghost function Stream(fs: seq<Frame>): Bytes
    requires AllFramable(fs)
  {
    if fs == [] then [] else EncodeFrame(fs[0]) + Stream(fs[1..])
  }

  /** How many of the frames lie wholly within the first `n` stream bytes. */
  ghost function Whole(fs: seq<Frame>, n: nat): (k: nat)
    requires AllFramable(fs)
    ensures k <= |fs|
  {
    if fs == [] || n < |EncodeFrame(fs[0])| then 0
    else 1 + Whole(fs[1..], n - |EncodeFrame(fs[0])|)
  }

  /** `Whole` is the largest count whose frames fit. */
  lemma {:induction false} WholeIs(fs: seq<Frame>, n: nat)
    requires AllFramable(fs)
    ensures |Stream(fs[..Whole(fs, n)])| <= n
    ensures Whole(fs, n) < |fs| ==> n < |Stream(fs[..Whole(fs, n) + 1])|
  {
    hide Framable, EncodeFrame;
    if fs == [] || n < |EncodeFrame(fs[0])| {
      if fs != [] {
        assert fs[..1][0] == fs[0] && fs[..1][1..] == [];
        assert Stream(fs[..1]) == EncodeFrame(fs[0]) + Stream(fs[..1][1..]);
      }
    } else {
      var m := n - |EncodeFrame(fs[0])|;
      var k := Whole(fs[1..], m);
      WholeIs(fs[1..], m);
      assert fs[..k + 1][1..] == fs[1..][..k];
      if k < |fs[1..]| {
        assert fs[..k + 2][1..] == fs[1..][..k + 1];
      }
    }
  }

  /** The loop inside one read: decode until nothing more is complete. */
  datatype Drained = Drained(frames: seq<Frame>, rest: Bytes, panicked: bool)

  function Drain(buf: Bytes): Drained
    decreases |buf|
  {
    match DecodeFrame(buf)
    case Incomplete => Drained([], buf, false)
    case Panicked => Drained([], buf, true)
    case Got(f, n) =>
      var d := Drain(buf[n..]);
      Drained([f] + d.frames, d.rest, d.panicked)
  }

  /** Draining any prefix of an encoded stream yields exactly its whole frames
      and leaves exactly the bytes of the unfinished one. */
  lemma {:induction false} DrainPrefix(fs: seq<Frame>, x: Bytes)
    requires AllFramable(fs) && x <= Stream(fs)
    ensures var k := Whole(fs, |x|);
            |Stream(fs[..k])| <= |x| && Drain(x) == Drained(fs[..k], x[|Stream(fs[..k])|..], false)
  {
    hide DecodeFrame, EncodeFrame, Framable, Drain;
    if fs == [] {
      DrainShort(x);
    } else {
      var f := fs[0];
      var n := |EncodeFrame(f)|;
      if |x| < n {
        assert x <= EncodeFrame(f);
        FrameShort(f, x);
        DrainShort(x);
      } else {
        var y := x[n..];
        assert x == EncodeFrame(f) + y;
        DrainFrame(f, y);
        assert y <= Stream(fs[1..]);
        DrainPrefix(fs[1..], y);
        var k := Whole(fs[1..], |y|);
        StreamTake(fs, k);
        assert x[n + |Stream(fs[1..][..k])|..] == y[|Stream(fs[1..][..k])|..];
      }
    }
  }

  lemma DrainShort(x: Bytes)
    requires x == [] || DecodeFrame(x) == Incomplete
    ensures Drain(x) == Drained([], x, false)
  {
  }

  lemma DrainFrame(f: Frame, y: Bytes)
    requires Framable(f)
    ensures Drain(EncodeFrame(f) + y) == Drained([f] + Drain(y).frames, Drain(y).rest, Drain(y).panicked)
  {
    hide DecodeFrame, EncodeFrame, Framable;
    FrameRoundTrip(f, y);
    assert (EncodeFrame(f) + y)[|EncodeFrame(f)|..] == y;
  }

  lemma NoStream()
    ensures AllFramable([]) && Stream([]) == []
  {
  }

  lemma SubFramable(fs: seq<Frame>, k: nat)
    requires AllFramable(fs) && k <= |fs|
    ensures AllFramable(fs[..k]) && AllFramable(fs[k..])
    ensures fs != [] ==> Framable(fs[0]) && AllFramable(fs[1..])
  {
    hide Framable;
  }

  lemma StreamFirst(fs: seq<Frame>, n: nat)
    requires AllFramable(fs) && fs != [] && |EncodeFrame(fs[0])| <= n
    ensures Stream(fs) == EncodeFrame(fs[0]) + Stream(fs[1..])
    ensures Whole(fs, n) == 1 + Whole(fs[1..], n - |EncodeFrame(fs[0])|)
  {
    hide EncodeFrame, Framable;
  }

  lemma StreamTake(fs: seq<Frame>, k: nat)
    requires AllFramable(fs) && k < |fs|
    ensures fs[..k + 1] == [fs[0]] + fs[1..][..k]
    ensures Stream(fs[..k + 1]) == EncodeFrame(fs[0]) + Stream(fs[1..][..k])
  {
    hide EncodeFrame, Framable;
    assert fs[..k + 1][1..] == fs[1..][..k] && fs[..k + 1][0] == fs[0];
  }

  /** Frames already counted in a shorter prefix are counted again in a longer one. */
  lemma {:induction false} WholeSplit(fs: seq<Frame>, k: nat, n: nat)
    requires AllFramable(fs) && k <= |fs| && |Stream(fs[..k])| <= n
    ensures Whole(fs, n) == k + Whole(fs[k..], n - |Stream(fs[..k])|)
    ensures Stream(fs) == Stream(fs[..k]) + Stream(fs[k..])
    decreases k
  {
    hide EncodeFrame, Framable, Stream, Whole, AllFramable;
    SubFramable(fs, k);
    if k == 0 {
      NoStream();
      assert fs[0..] == fs && fs[..0] == [];
    } else {
      var first := EncodeFrame(fs[0]);
      StreamTake(fs, k - 1);
      assert fs[1..][k - 1..] == fs[k..];
      WholeSplit(fs[1..], k - 1, n - |first|);
      StreamFirst(fs, n);
    }
  }
}
